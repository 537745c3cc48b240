/**
 Routing one request inside the gateway: attempts with rescheduling in between, then fallback endpoints.
 Everything the outside decides (handler results, cancellations, schedules) is an oracle per attempt.
 */
module GatewayRetry {
  import opened Wrappers

  type Instance(==, !new)

  /** What one forwarding attempt ends in; `headerSent` means the client already saw response headers. */
  datatype HandleResult = Success | Fatal | Retryable(headerSent: bool)

  /** The world outside, attempt by attempt and fallback by fallback. */
  datatype World = World(
    handle: nat -> HandleResult,
    added: nat -> seq<Instance>,     // decode instances scheduled while the attempt is forwarded
    schedule: nat -> Option<seq<Instance>>,
    cancelledBefore: nat -> bool,
    cancelledDuring: nat -> bool,
    proxied: nat -> ProxyResult,
    headerBefore: nat -> bool,
    skipped: nat -> bool)

  /**
   A fallback call: it works, it fails, it fails with the context gone, or a rate-limit retry rescues or
   cancels it.
   */
  datatype ProxyResult = Proxied | ProxyFailed | ProxyCancelled | RateLimitRetried(ok: bool) | RateLimitCancelled

  datatype Ending = Forwarded | HeadersAlreadySent | FellBack | Failed | NoAttempt

  class Routing {
    const world: World
    const maxRetries: int
    const fallbacks: nat        // how many fallback endpoints are configured
    const fullMode: bool

    var results: seq<Instance>  // current scheduling results
    var forwardSucceeded: bool
    var fallbackAttempt: nat
    var channelClosed: nat
    var responses: nat          // messages put on the response channel
    var attempts: nat
    var tried: seq<nat>         // fallback endpoints proxied to, in order
    ghost var scheduled: multiset<Instance>
    ghost var released: multiset<Instance>

    constructor (world: World, maxRetries: int, fallbacks: nat, fullMode: bool, first: seq<Instance>)
      ensures this.world == world && this.maxRetries == maxRetries && this.fallbacks == fallbacks
      ensures this.fullMode == fullMode
      ensures results == first && scheduled == multiset(first) && released == multiset{} && Fresh()
    {
      this.world, this.maxRetries, this.fallbacks, this.fullMode := world, maxRetries, fallbacks, fullMode;
      results, scheduled, released := first, multiset(first), multiset{};
      forwardSucceeded, fallbackAttempt, channelClosed, responses, attempts, tried := false, 0, 0, 0, 0, [];
    }

    ghost predicate Fresh()
      reads this
    {
      !forwardSucceeded && fallbackAttempt == 0 && channelClosed == 0 && responses == 0 && attempts == 0 && tried == []
    }

    /** Everything ever scheduled is either released already or among the current results. */
    ghost predicate Accounted()
      reads this
    {
      scheduled == released + multiset(results)
    }

    /** The instances of an attempt: those it starts with and those scheduled on the way. */
    ghost function Results(attempt: nat, first: seq<Instance>): seq<Instance> {
      (if attempt == 0 then first else if world.schedule(attempt).Some? then world.schedule(attempt).value else [])
      + world.added(attempt)
    }

    /** Gives back all current results, each once. */
    method ReleaseResults()
      modifies `released
      ensures released == old(released) + multiset(results)
    {
      ghost var before := released;
      for i := 0 to |results|
        invariant released == before + multiset(results[..i])
      {
        released := released + multiset{results[i]};
        assert results[..i + 1] == results[..i] + [results[i]];
      }
      assert results[..|results|] == results;
    }

    /** Of the endpoints between `from` and `to` exactly those that are not skipped are in the list. */
    ghost predicate Walked(list: seq<nat>, from: nat, to: nat) {
      forall e :: from <= e < to ==> (e in list <==> !world.skipped(e))
    }

    lemma OneMoreEndpoint(list: seq<nat>, from: nat, at: nat)
      requires Walked(list, from, at) && Increasing(list, at)
      ensures Increasing(list, at + 1) && Increasing(list + [at], at + 1)
      ensures if world.skipped(at) then Walked(list, from, at + 1) else Walked(list + [at], from, at + 1)
    {
    }

    /** Fallback endpoints are taken in order, each at most once, and the walk ends. */
    method TryFallback() returns (ok: bool)
      requires Increasing(tried, fallbackAttempt)
      modifies `fallbackAttempt, `tried
      ensures Increasing(tried, fallbackAttempt) && old(tried) <= tried
      ensures old(fallbackAttempt) <= fallbackAttempt
      ensures (fallbackAttempt <= fallbacks || fallbackAttempt == old(fallbackAttempt))
      ensures old(fallbackAttempt) >= fallbacks ==> !ok && tried == old(tried)
      ensures Walked(tried, old(fallbackAttempt), fallbackAttempt)
      ensures ok ==>
                (|tried| > |old(tried)| && Worked(world.proxied(tried[|tried| - 1])))
                || world.headerBefore(fallbackAttempt)
    {
      while fallbackAttempt < fallbacks
        invariant Increasing(tried, fallbackAttempt) && old(tried) <= tried
        invariant old(fallbackAttempt) <= fallbackAttempt
        invariant (fallbackAttempt <= fallbacks || fallbackAttempt == old(fallbackAttempt))
        invariant old(fallbackAttempt) >= fallbacks ==> tried == old(tried) && fallbackAttempt == old(fallbackAttempt)
        invariant Walked(tried, old(fallbackAttempt), fallbackAttempt)
        decreases fallbacks - fallbackAttempt
      {
        if world.headerBefore(fallbackAttempt) {
          return true;
        }
        var endpoint := fallbackAttempt;
        OneMoreEndpoint(tried, old(fallbackAttempt), endpoint);
        fallbackAttempt := fallbackAttempt + 1;
        if world.skipped(endpoint) {
          continue;
        }
        tried := tried + [endpoint];
        match world.proxied(endpoint) {
          case Proxied => return true;
          case ProxyCancelled => return false;
          case RateLimitRetried(retryOk) =>
            if retryOk {
              return true;
            }
          case RateLimitCancelled => return false;
          case ProxyFailed =>
        }
      }
      return false;
    }

    method FallbackOrFail() returns (ending: Ending)
      requires Increasing(tried, fallbackAttempt)
      modifies `fallbackAttempt, `tried, `responses
      ensures Increasing(tried, fallbackAttempt)
      ensures ending == FellBack || ending == Failed
      ensures responses == old(responses) + if ending == Failed then 1 else 0
    {
      if fallbackAttempt < fallbacks {
        var ok := TryFallback();
        if ok {
          return FellBack;
        }
      }
      responses := responses + 1;
      return Failed;
    }

    /** Gives the instances of the failed attempt back and asks for new ones. */
    method Reschedule(attempt: nat) returns (rescheduled: bool)
      requires Accounted()
      modifies `results, `scheduled, `released
      ensures Accounted() && rescheduled == world.schedule(attempt).Some?
      ensures results == if rescheduled then world.schedule(attempt).value else []
      ensures released == old(scheduled)
      ensures scheduled == old(scheduled) + multiset(results)
    {
      ReleaseResults();
      results := [];
      var got := world.schedule(attempt);
      rescheduled := got.Some?;
      if rescheduled {
        results := got.value;
      }
      scheduled := scheduled + multiset(results);
    }

    /** What comes before a retry; nothing when the attempt can be made. */
    method Prepare(attempt: nat) returns (stop: Option<Ending>)
      requires Accounted() && responses == 0 && Increasing(tried, fallbackAttempt)
      modifies `results, `scheduled, `released, `responses, `fallbackAttempt, `tried
      ensures Accounted() && Increasing(tried, fallbackAttempt)
      ensures stop.None? ==> world.schedule(attempt).Some? && results == world.schedule(attempt).value
      ensures stop.Some? ==> stop.value == FellBack || stop.value == Failed
      ensures responses == if stop == Some(Failed) then 1 else 0
    {
      if world.cancelledBefore(attempt) {
        responses := responses + 1;
        return Some(Failed);
      }
      var rescheduled := Reschedule(attempt);
      if !rescheduled {
        var ending := FallbackOrFail();
        return Some(ending);
      }
      return None;
    }

    /** Staged scheduling adds decode instances to the results while the attempt is under way. */
    method ScheduleDecode(attempt: nat)
      requires Accounted()
      modifies `results, `scheduled
      ensures Accounted() && results == old(results) + world.added(attempt)
    {
      results := results + world.added(attempt);
      scheduled := scheduled + multiset(world.added(attempt));
    }

    /** One forwarding attempt; nothing when another attempt should follow. */
    method Forward(attempt: nat) returns (stop: Option<Ending>)
      requires responses == 0 && !forwardSucceeded && attempt == attempts <= maxRetries
      requires Increasing(tried, fallbackAttempt)
      requires Accounted()
      modifies `attempts, `forwardSucceeded, `responses, `fallbackAttempt, `tried, `results, `scheduled
      ensures Accounted() && results == old(results) + world.added(attempt)
      ensures attempts == old(attempts) + 1 && Increasing(tried, fallbackAttempt)
      ensures forwardSucceeded <==> stop == Some(Forwarded)
      ensures stop == Some(Forwarded) <==> world.handle(attempt) == Success
      ensures responses == if stop == Some(Failed) then 1 else 0
      ensures stop != Some(NoAttempt)
      ensures (stop.None? ==> attempt < maxRetries && world.handle(attempt) == Retryable(false))
    {
      attempts := attempts + 1;
      ScheduleDecode(attempt);
      var outcome := world.handle(attempt);
      if outcome.Success? {
        forwardSucceeded := true;
        return Some(Forwarded);
      }
      if outcome.Fatal? {
        responses := responses + 1;
        return Some(Failed);
      }
      if outcome.headerSent {
        return Some(HeadersAlreadySent);
      }
      if attempt == maxRetries {
        var ending := FallbackOrFail();
        return Some(ending);
      }
      if world.cancelledDuring(attempt) {
        responses := responses + 1;
        return Some(Failed);
      }
      return None;
    }

    /** The attempt loop, without the deferred clean-up. */
    method Attempts() returns (ending: Ending)
      requires Fresh() && Accounted()
      modifies this
      ensures Accounted() && channelClosed == 0 && attempts <= (if maxRetries < 0 then 0 else maxRetries + 1)
      ensures Increasing(tried, fallbackAttempt)
      ensures forwardSucceeded <==> ending == Forwarded
      ensures responses == if ending == Failed then 1 else 0
      ensures ending == Forwarded ==> attempts > 0 && world.handle(attempts - 1) == Success
      ensures ending == NoAttempt <==> maxRetries < 0
      ensures forall k :: 0 <= k < attempts - 1 ==> world.handle(k) == Retryable(false)
      ensures ending == Forwarded ==> results == Results(attempts - 1, old(results))
    {
      var attempt := 0;
      while attempt <= maxRetries
        invariant 0 <= attempt == attempts
        invariant Accounted() && channelClosed == 0 && responses == 0 && !forwardSucceeded
        invariant Increasing(tried, fallbackAttempt)
        invariant attempt > 0 ==> attempt <= maxRetries
        invariant attempt == 0 ==> results == old(results)
        invariant forall k :: 0 <= k < attempt ==> world.handle(k) == Retryable(false)
        decreases maxRetries + 1 - attempt
      {
        var stop := None;
        if attempt > 0 {
          stop := Prepare(attempt);
          if stop.Some? {
            return stop.value;
          }
        }
        stop := Forward(attempt);
        if stop.Some? {
          return stop.value;
        }
        attempt := attempt + 1;
      }
      return NoAttempt;
    }

    /** Routing with its deferred clean-up: the channel is closed once, and failed results are given back. */
    method InternalRouteRequest() returns (ending: Ending)
      requires Fresh() && scheduled == multiset(results) && released == multiset{}
      modifies this
      ensures channelClosed == 1 && responses <= 1
      ensures attempts <= if maxRetries < 0 then 0 else maxRetries + 1
      ensures fullMode && ending != Forwarded ==> released == scheduled
      ensures fullMode && ending == Forwarded ==> scheduled == released + multiset(results)
      ensures ending == Failed <==> responses == 1
      ensures ending == Forwarded ==>
                attempts > 0 && world.handle(attempts - 1) == Success && results == Results(attempts - 1, old(results))
      ensures forall k :: 0 <= k < attempts - 1 ==> world.handle(k) == Retryable(false)
      ensures Increasing(tried, fallbackAttempt)
    {
      ending := Attempts();
      channelClosed := channelClosed + 1;
      if fullMode && !forwardSucceeded {
        ReleaseResults();
      }
    }
  }

  predicate Worked(r: ProxyResult) {
    r.Proxied? || (r.RateLimitRetried? && r.ok)
  }

  /** Strictly increasing numbers below a bound: no endpoint twice. */
  predicate Increasing(list: seq<nat>, bound: nat) {
    && (forall i :: 0 <= i < |list| ==> list[i] < bound)
    && (forall i, j :: 0 <= i < j < |list| ==> list[i] < list[j])
  }
}
