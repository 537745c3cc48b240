/**
 The source connector with all its requests: the queue-processing loops. `At` is what the connector looks
 like for a single request; every loop is shown to act on each request as the steps of `MigrationProtocol`.
 */
module MigrationConnector {
  import opened MigrationProtocol

  type ReqId(==, !new)
  type Address(==, !new)

  datatype Request = Request(tokens: seq<Token>, finished: bool, doMigrateOut: bool)

  datatype Message = Message(to: Address, reqId: ReqId, verdict: Verdict)

  datatype Connector = Connector(requests: map<ReqId, Request>, paths: map<ReqId, Address>,
                                 success: seq<ReqId>, failed: seq<ReqId>, sent: seq<Message>)

  predicate Known(c: Connector, id: ReqId) {
    id in c.requests && !c.requests[id].finished
  }

  // ---------------------------------------------------------------- one entry at a time

  /** One entry of the success queue; `c.success` collects the entries that stay. */
  function SuccessEntry(c: Connector, id: ReqId): Connector {
    if id !in c.paths then c.(success := c.success + [id])
    else if !Known(c, id) then c.(failed := c.failed + [id])
    else c.(paths := c.paths - {id}, requests := c.requests - {id},
            sent := c.sent + [Message(c.paths[id], id, Update(c.requests[id].tokens))])
  }

  function FailedEntry(c: Connector, id: ReqId): Connector {
    if id !in c.paths then c.(failed := c.failed + [id])
    else c.(paths := c.paths - {id}, sent := c.sent + [Message(c.paths[id], id, Abort)])
  }

  function SuccessAll(c: Connector, queue: seq<ReqId>): Connector {
    if queue == [] then c else SuccessEntry(SuccessAll(c, queue[..|queue| - 1]), queue[|queue| - 1])
  }

  function FailedAll(c: Connector, queue: seq<ReqId>): Connector {
    if queue == [] then c else FailedEntry(FailedAll(c, queue[..|queue| - 1]), queue[|queue| - 1])
  }

  class SourceConnector {
    var requests: map<ReqId, Request>
    var paths: map<ReqId, Address>
    var success: seq<ReqId>
    var failed: seq<ReqId>
    var sent: seq<Message>

    function View(): Connector
      reads this
    {
      Connector(requests, paths, success, failed, sent)
    }

    constructor (requests: map<ReqId, Request>)
      ensures View() == Connector(requests, map[], [], [], [])
    {
      this.requests, paths, success, failed, sent := requests, map[], [], [], [];
    }

    method HandleRegister(ids: seq<ReqId>, path: Address)
      modifies this
      ensures View() == old(View()).(paths := paths)
      ensures forall id :: id in paths <==> id in old(paths) || id in ids
      ensures forall id :: id in paths ==> paths[id] == if id in ids then path else old(paths)[id]
    {
      for i := 0 to |ids|
        invariant View() == old(View()).(paths := paths)
        invariant forall id :: id in paths <==> id in old(paths) || id in ids[..i]
        invariant forall id :: id in paths ==> paths[id] == if id in ids[..i] then path else old(paths)[id]
      {
        paths := paths[ids[i] := path];
      }
    }

    /** Sorts transfer results into the queues; results that belong to no migration are passed on. */
    method UpdateConnectorOutput(finishedSending: seq<ReqId>, failedSending: seq<ReqId>) returns (others: seq<ReqId>)
      modifies this
      ensures View() == old(View()).(success := old(success) + Migrated(requests, finishedSending),
                                     failed := old(failed) + GivenUp(requests, finishedSending) + failedSending)
      ensures others == NotMigrating(requests, finishedSending)
    {
      others := [];
      for i := 0 to |finishedSending|
        invariant View() == old(View()).(success := old(success) + Migrated(requests, finishedSending[..i]),
                                         failed := old(failed) + GivenUp(requests, finishedSending[..i]))
        invariant others == NotMigrating(requests, finishedSending[..i])
      {
        var id := finishedSending[i];
        assert finishedSending[..i + 1][..i] == finishedSending[..i];
        if id !in requests || (requests[id].finished && requests[id].doMigrateOut) {
          failed := failed + [id];
        } else if requests[id].doMigrateOut {
          success := success + [id];
        } else {
          others := others + [id];
        }
      }
      assert finishedSending[..|finishedSending|] == finishedSending;
      QueueFailed(failedSending);
    }

    /** Every failed transfer goes to the failed queue. */
    method QueueFailed(failedSending: seq<ReqId>)
      modifies this`failed
      ensures failed == old(failed) + failedSending
    {
      for i := 0 to |failedSending|
        invariant failed == old(failed) + failedSending[..i]
      {
        failed := failed + [failedSending[i]];
      }
      assert failedSending[..|failedSending|] == failedSending;
    }

    method ProcessSuccessQueue()
      modifies this
      ensures View() == SuccessAll(old(View()).(success := []), old(success))
    {
      var queue := success;
      var kept: seq<ReqId> := [];
      for i := 0 to |queue|
        invariant success == queue
        invariant View().(success := kept) == SuccessAll(old(View()).(success := []), queue[..i])
      {
        var id := queue[i];
        assert queue[..i + 1][..i] == queue[..i];
        if id !in paths {
          kept := kept + [id];
          continue;
        }
        if id !in requests || requests[id].finished {
          failed := failed + [id];
          continue;
        }
        var tokens, path := requests[id].tokens, paths[id];
        paths := paths - {id};
        requests := requests - {id};
        sent := sent + [Message(path, id, Update(tokens))];
      }
      assert queue[..|queue|] == queue;
      success := kept;
    }

    method ProcessFailedQueue()
      modifies this
      ensures View() == FailedAll(old(View()).(failed := []), old(failed))
    {
      var queue := failed;
      var kept: seq<ReqId> := [];
      for i := 0 to |queue|
        invariant failed == queue
        invariant View().(failed := kept) == FailedAll(old(View()).(failed := []), queue[..i])
      {
        var id := queue[i];
        assert queue[..i + 1][..i] == queue[..i];
        if id !in paths {
          kept := kept + [id];
          continue;
        }
        var path := paths[id];
        paths := paths - {id};
        sent := sent + [Message(path, id, Abort)];
      }
      assert queue[..|queue|] == queue;
      failed := kept;
    }
  }

  function Migrated(requests: map<ReqId, Request>, ids: seq<ReqId>): seq<ReqId> {
    if ids == [] then []
    else
      var id := ids[|ids| - 1];
      Migrated(requests, ids[..|ids| - 1])
      + if id in requests && requests[id].doMigrateOut && !requests[id].finished then [id] else []
  }

  function GivenUp(requests: map<ReqId, Request>, ids: seq<ReqId>): seq<ReqId> {
    if ids == [] then []
    else
      var id := ids[|ids| - 1];
      GivenUp(requests, ids[..|ids| - 1])
      + if id !in requests || (requests[id].finished && requests[id].doMigrateOut) then [id] else []
  }

  function NotMigrating(requests: map<ReqId, Request>, ids: seq<ReqId>): seq<ReqId> {
    if ids == [] then []
    else
      var id := ids[|ids| - 1];
      NotMigrating(requests, ids[..|ids| - 1]) + if id in requests && !requests[id].doMigrateOut then [id] else []
  }

  // ---------------------------------------------------------------- seen from one request

  function Count(queue: seq<ReqId>, id: ReqId): nat {
    if queue == [] then 0 else Count(queue[..|queue| - 1], id) + if queue[|queue| - 1] == id then 1 else 0
  }

  /** The verdicts sent about one request. */
  function Verdicts(sent: seq<Message>, id: ReqId): seq<Verdict> {
    if sent == [] then []
    else Verdicts(sent[..|sent| - 1], id) + if sent[|sent| - 1].reqId == id then [sent[|sent| - 1].verdict] else []
  }

  predicate HasUpdate(verdicts: seq<Verdict>) {
    exists k :: 0 <= k < |verdicts| && verdicts[k].Update?
  }

  lemma HasUpdateAppend(verdicts: seq<Verdict>, v: Verdict)
    ensures HasUpdate(verdicts + [v]) <==> HasUpdate(verdicts) || v.Update?
  {
    if HasUpdate(verdicts) {
      var k :| 0 <= k < |verdicts| && verdicts[k].Update?;
      assert (verdicts + [v])[k].Update?;
    }
    assert (verdicts + [v])[|verdicts|] == v;
  }

  /** `tokens` are the request's last known tokens, kept for when it is no longer in the map. */
  function At(c: Connector, id: ReqId, tokens: seq<Token>): Sender {
    Sender(
      if id in c.requests then (if c.requests[id].finished then Finished else Live)
      else if HasUpdate(Verdicts(c.sent, id)) then Handed else Freed,
      if id in c.requests then c.requests[id].tokens else tokens,
      id in c.paths, Count(c.success, id), Count(c.failed, id), Verdicts(c.sent, id))
  }

  lemma CountAppend(queue: seq<ReqId>, x: ReqId, id: ReqId)
    ensures Count(queue + [x], id) == Count(queue, id) + if x == id then 1 else 0
  {
    assert (queue + [x])[..|queue|] == queue;
  }

  lemma VerdictsAppend(sent: seq<Message>, m: Message, id: ReqId)
    ensures Verdicts(sent + [m], id) == if m.reqId == id then Verdicts(sent, id) + [m.verdict] else Verdicts(sent, id)
  {
    assert (sent + [m])[..|sent|] == sent;
  }

  /** An entry of the success queue is a step of the protocol for its own request and nothing for the others. */
  lemma SuccessEntryIsStep(c: Connector, x: ReqId, id: ReqId, tokens: seq<Token>)
    requires id in c.requests ==> tokens == c.requests[id].tokens
    ensures var before := At(c, id, tokens);
            At(SuccessEntry(c, x), id, tokens)
            == if x == id then SuccessStep(before.(success := before.success + 1)) else before
  {
    if x !in c.paths {
      CountAppend(c.success, x, id);
    } else if !Known(c, x) {
      GiveUp(c, x, id, tokens);
    } else {
      HandOver(c, x, id, tokens);
    }
  }

  lemma GiveUp(c: Connector, x: ReqId, id: ReqId, tokens: seq<Token>)
    requires x in c.paths && !Known(c, x)
    ensures var before := At(c, id, tokens);
            At(SuccessEntry(c, x), id, tokens) == if x == id then before.(failed := before.failed + 1) else before
  {
    CountAppend(c.failed, x, id);
  }

  lemma HandOver(c: Connector, x: ReqId, id: ReqId, tokens: seq<Token>)
    requires (id in c.requests ==> tokens == c.requests[id].tokens) && x in c.paths && Known(c, x)
    ensures var before := At(c, id, tokens);
            At(SuccessEntry(c, x), id, tokens)
            == if x == id then before.(path := false, status := Handed,
                                       sent := before.sent + [Update(before.tokens)]) else before
  {
    var m := Message(c.paths[x], x, Update(c.requests[x].tokens));
    VerdictsAppend(c.sent, m, id);
    HasUpdateAppend(Verdicts(c.sent, id), m.verdict);
  }

  lemma FailedEntryIsStep(c: Connector, x: ReqId, id: ReqId, tokens: seq<Token>)
    requires id in c.requests ==> tokens == c.requests[id].tokens
    ensures var before := At(c, id, tokens);
            At(FailedEntry(c, x), id, tokens)
            == if x == id then FailedStep(before.(failed := before.failed + 1)) else before
  {
    CountAppend(c.failed, x, id);
    if x in c.paths {
      var m := Message(c.paths[x], x, Abort);
      VerdictsAppend(c.sent, m, id);
      HasUpdateAppend(Verdicts(c.sent, id), Abort);
    }
  }

  /** Processing the whole success queue is one protocol step for a request that is queued once. */
  lemma {:induction false} SuccessQueueIsStep(c: Connector, queue: seq<ReqId>, id: ReqId, tokens: seq<Token>)
    requires Count(queue, id) <= 1 && Count(c.success, id) == 0
    requires (id in c.requests ==> tokens == c.requests[id].tokens)
    ensures var before := At(c, id, tokens);
            var after := SuccessAll(c, queue);
            && At(after, id, tokens) == (if Count(queue, id) == 0 then before else SuccessStep(before.(success := 1)))
            && (id in after.requests ==> tokens == after.requests[id].tokens)
    decreases |queue|
  {
    if queue == [] {
    } else {
      var init := queue[..|queue| - 1];
      SuccessQueueIsStep(c, init, id, tokens);
      SuccessEntryIsStep(SuccessAll(c, init), queue[|queue| - 1], id, tokens);
    }
  }

  lemma {:induction false} FailedQueueIsStep(c: Connector, queue: seq<ReqId>, id: ReqId, tokens: seq<Token>)
    requires Count(queue, id) <= 1 && Count(c.failed, id) == 0 && (id in c.requests ==> tokens == c.requests[id].tokens)
    ensures var before := At(c, id, tokens);
            var after := FailedAll(c, queue);
            && At(after, id, tokens) == (if Count(queue, id) == 0 then before else FailedStep(before.(failed := 1)))
            && (id in after.requests ==> tokens == after.requests[id].tokens)
    decreases |queue|
  {
    if queue == [] {
    } else {
      var init := queue[..|queue| - 1];
      FailedQueueIsStep(c, init, id, tokens);
      FailedEntryIsStep(FailedAll(c, init), queue[|queue| - 1], id, tokens);
    }
  }
}
