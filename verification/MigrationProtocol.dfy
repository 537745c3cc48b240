/**
 Handing a running request from one engine to another while it keeps generating. One request, its source
 engine, its destination engine and the messages between them; every interleaving is a sequence of events.
 */
module MigrationProtocol {

  type Token(==, !new)

  /** The request at its source: generating, finished, finished and freed, or handed over. */
  datatype SrcStatus = Live | Finished | Freed | Handed

  datatype Verdict = Update(tokens: seq<Token>) | Abort

  /** The source connector's view of one request: its queues, the registered reply path and what it sent. */
  datatype Sender = Sender(status: SrcStatus, tokens: seq<Token>, path: bool, success: nat, failed: nat,
                           sent: seq<Verdict>)

  /** The copy at the destination. Only a ready copy is scheduled there. */
  datatype Copy =
    | NoCopy | Queued(tokens: seq<Token>) | WaitingKv(tokens: seq<Token>)
    | Ready(tokens: seq<Token>) | Complete(tokens: seq<Token>)

  /** What the source engine knows besides the request itself. */
  datatype Source = Source(
    migrating: bool,       // marked so that it is not selected again
    outQueue: bool,        // waiting in the migrate-out queue
    rpc: bool,             // the remote call that ships the copy is pending
    sendQueued: bool,      // the scheduler has yet to tell its worker about the blocks
    needSend: bool)        // the worker knows the blocks, so that they can be pulled

  datatype Wire = Wire(
    registerMsg: bool,     // the destination's register message is on its way
    reportOk: nat,         // transfer results the scheduler has not looked at yet
    reportFail: nat)

  datatype Destination = Destination(
    copy: Copy,
    pulled: bool,          // the destination has asked for the blocks, which it does once
    handled: nat)          // how many verdicts the destination has handled

  datatype History = History(
    accepted: nat,         // migrations the destination accepted
    reported: nat,         // transfer results
    missed: bool)          // a pull was answered without sending anything

  datatype State = State(sender: Sender, src: Source, wire: Wire, dst: Destination, past: History)

  function Init(tokens: seq<Token>): State {
    State(Sender(Live, tokens, false, 0, 0, []), Source(false, false, false, false, false), Wire(false, 0, 0),
          Destination(NoCopy, false, 0), History(0, 0, false))
  }

  /** Events of the source engine, of the remote call, of the transfer, of the connector's queues and of the copy. */
  datatype Event =
    | AtSource(source: SourceEvent)
    | OnCall(call: CallEvent)
    | OnTransfer(transfer: TransferEvent)
    | InQueue(queue: QueueEvent)
    | AtCopy(copy: CopyEvent)

  datatype SourceEvent = Generate(token: Token) | Finish | Free | MigrateOut | ProcessOutQueue | SendMeta

  datatype CallEvent = CallFails | CallDeclined | CallDelivered

  datatype TransferEvent = Register | Transfer(ok: bool) | MissedPull(mate: bool)

  datatype QueueEvent = ConnectorOutput | SuccessQueue | FailedQueue

  datatype CopyEvent = AddCopy | Deliver | CopyGenerates(token: Token) | CopyFinishes

  predicate Unfinished(q: Sender) {
    q.status == Live
  }

  /** One entry of the success queue: wait for the path, give up on a finished request, or hand over. */
  function SuccessStep(q: Sender): Sender
    requires q.success > 0
  {
    if !q.path then q
    else if !Unfinished(q) then q.(success := q.success - 1, failed := q.failed + 1)
    else q.(success := q.success - 1, path := false, status := Handed, sent := q.sent + [Update(q.tokens)])
  }

  /** One entry of the failed queue: wait for the path, then tell the destination to drop its copy. */
  function FailedStep(q: Sender): Sender
    requires q.failed > 0
  {
    if !q.path then q else q.(failed := q.failed - 1, path := false, sent := q.sent + [Abort])
  }

  /** A transfer result: finished or unknown requests and failed transfers go to the failed queue. */
  function Classify(q: Sender, ok: bool): Sender {
    if ok && Unfinished(q) then q.(success := q.success + 1) else q.(failed := q.failed + 1)
  }

  /** What the destination does with a verdict. The copy catches up with the tokens generated meanwhile. */
  function Handle(copy: Copy, v: Verdict): Copy {
    match v
    case Update(tokens) =>
      if copy.WaitingKv? && |copy.tokens| <= |tokens| then Ready(copy.tokens + tokens[|copy.tokens|..]) else copy
    case Abort => if copy.NoCopy? || copy.Queued? then copy else NoCopy
  }

  predicate SourceEnabled(s: State, e: SourceEvent) {
    match e
    case Generate(_) => s.sender.status == Live
    case Finish => s.sender.status == Live
    case Free => s.sender.status == Finished
    case MigrateOut => s.sender.status == Live && !s.src.migrating
    case ProcessOutQueue => s.src.outQueue
    case SendMeta => s.src.sendQueued && (s.sender.status == Live || s.sender.status == Finished)
  }

  function SourceNext(s: State, e: SourceEvent): State
    requires SourceEnabled(s, e)
  {
    match e
    case Generate(t) => s.(sender := s.sender.(tokens := s.sender.tokens + [t]))
    case Finish => s.(sender := s.sender.(status := Finished))
    case Free => s.(sender := s.sender.(status := Freed))
    case MigrateOut => s.(src := s.src.(migrating := true, outQueue := true))
    case ProcessOutQueue =>
      if Unfinished(s.sender) then s.(src := s.src.(outQueue := false, rpc := true, sendQueued := true))
      else s.(src := s.src.(outQueue := false))
    case SendMeta => s.(src := s.src.(sendQueued := false, needSend := true))
  }

  function CallNext(s: State, e: CallEvent): State {
    match e
    case CallFails => s.(src := s.src.(rpc := false, migrating := false))
    case CallDeclined => s.(src := s.src.(rpc := false))
    case CallDelivered =>
      s.(src := s.src.(rpc := false), wire := s.wire.(registerMsg := true),
         dst := s.dst.(copy := Queued(s.sender.tokens)),
         past := s.past.(accepted := s.past.accepted + 1))
  }

  predicate TransferEnabled(s: State, e: TransferEvent) {
    match e
    case Register => s.wire.registerMsg
    case Transfer(_) => s.dst.copy.WaitingKv? && !s.dst.pulled && s.src.needSend
    case MissedPull(mate) => s.dst.copy.WaitingKv? && !s.dst.pulled && (mate || !s.src.needSend)
  }

  function TransferNext(s: State, e: TransferEvent): State
    requires TransferEnabled(s, e)
  {
    match e
    case Register => s.(wire := s.wire.(registerMsg := false), sender := s.sender.(path := true))
    case Transfer(ok) =>
      s.(src := s.src.(needSend := false), dst := s.dst.(pulled := true),
         past := s.past.(reported := s.past.reported + 1),
         wire := if ok then s.wire.(reportOk := s.wire.reportOk + 1) else s.wire.(reportFail := s.wire.reportFail + 1))
    case MissedPull(_) => s.(dst := s.dst.(pulled := true), past := s.past.(missed := true))
  }

  predicate QueueEnabled(s: State, e: QueueEvent) {
    match e
    case ConnectorOutput => s.wire.reportOk + s.wire.reportFail > 0
    case SuccessQueue => s.sender.success > 0
    case FailedQueue => s.sender.failed > 0
  }

  function QueueNext(s: State, e: QueueEvent): State
    requires QueueEnabled(s, e)
  {
    match e
    case ConnectorOutput =>
      if s.wire.reportOk > 0
      then s.(wire := s.wire.(reportOk := s.wire.reportOk - 1), sender := Classify(s.sender, true))
      else s.(wire := s.wire.(reportFail := s.wire.reportFail - 1), sender := Classify(s.sender, false))
    case SuccessQueue => s.(sender := SuccessStep(s.sender))
    case FailedQueue => s.(sender := FailedStep(s.sender))
  }

  predicate CopyEnabled(s: State, e: CopyEvent) {
    match e
    case AddCopy => s.dst.copy.Queued?
    case Deliver => s.dst.handled < |s.sender.sent|
    case CopyGenerates(_) => s.dst.copy.Ready?
    case CopyFinishes => s.dst.copy.Ready?
  }

  function CopyNext(s: State, e: CopyEvent): State
    requires CopyEnabled(s, e)
  {
    match e
    case AddCopy => s.(dst := s.dst.(copy := WaitingKv(s.dst.copy.tokens)))
    case Deliver =>
      s.(dst := s.dst.(handled := s.dst.handled + 1, copy := Handle(s.dst.copy, s.sender.sent[s.dst.handled])))
    case CopyGenerates(t) => s.(dst := s.dst.(copy := Ready(s.dst.copy.tokens + [t])))
    case CopyFinishes => s.(dst := s.dst.(copy := Complete(s.dst.copy.tokens)))
  }

  predicate Enabled(s: State, e: Event) {
    match e
    case AtSource(source) => SourceEnabled(s, source)
    case OnCall(_) => s.src.rpc
    case OnTransfer(transfer) => TransferEnabled(s, transfer)
    case InQueue(queue) => QueueEnabled(s, queue)
    case AtCopy(copy) => CopyEnabled(s, copy)
  }

  function Next(s: State, e: Event): State
    requires Enabled(s, e)
  {
    match e
    case AtSource(source) => SourceNext(s, source)
    case OnCall(call) => CallNext(s, call)
    case OnTransfer(transfer) => TransferNext(s, transfer)
    case InQueue(queue) => QueueNext(s, queue)
    case AtCopy(copy) => CopyNext(s, copy)
  }

  /** A schedule of events that are all possible when they happen. */
  ghost predicate Runs(s: State, events: seq<Event>, t: State)
    decreases |events|
  {
    if events == [] then s == t
    else Enabled(s, events[0]) && Runs(Next(s, events[0]), events[1..], t)
  }

  // ---------------------------------------------------------------- the invariant

  function Flag(b: bool): nat {
    if b then 1 else 0
  }

  /** Every accepted migration is announced, registered or answered: one place at a time. */
  predicate Conserved(s: State) {
    && |s.sender.sent| + Flag(s.sender.path) + Flag(s.wire.registerMsg) == s.past.accepted <= 1
    && s.sender.success + s.sender.failed + s.wire.reportOk + s.wire.reportFail + |s.sender.sent| == s.past.reported
    && s.past.reported <= s.past.accepted
  }

  /** Nothing starts a second migration while one is on its way. */
  predicate OneAtATime(s: State) {
    && (s.src.outQueue || s.src.rpc || s.past.accepted > 0 ==> s.src.migrating)
    && !(s.src.outQueue && s.src.rpc)
    && (s.src.outQueue || s.src.rpc ==> s.past.accepted == 0)
    && s.past.reported + Flag(s.past.missed) == Flag(s.dst.pulled) && (s.dst.pulled ==> s.past.accepted == 1)
  }

  predicate Prefix(a: seq<Token>, b: seq<Token>) {
    |a| <= |b| && a == b[..|a|]
  }

  /** What the destination holds, given how far the migration got. */
  predicate CopyOk(s: State) {
    && s.dst.handled <= |s.sender.sent|
    && (s.dst.copy.Queued? ==> !s.dst.pulled)
    && (s.past.accepted == 0 ==> s.dst.copy.NoCopy?)
    && (s.past.accepted == 1 && s.dst.handled == 0 ==>
          (s.dst.copy.Queued? || s.dst.copy.WaitingKv?) && Prefix(s.dst.copy.tokens, s.sender.tokens))
    && (s.dst.handled == 1 ==>
          match s.sender.sent[0]
          case Update(tokens) => (s.dst.copy.Ready? || s.dst.copy.Complete?) && Prefix(tokens, s.dst.copy.tokens)
          case Abort => s.dst.copy.NoCopy?)
  }

  /** The source gives the request up exactly when it sends its tokens, and then they are all its tokens. */
  predicate HandoverOk(q: Sender) {
    && (q.status == Handed <==> |q.sent| == 1 && q.sent[0].Update?)
    && (q.status == Handed ==> q.sent[0].tokens == q.tokens)
  }

  predicate Inv(s: State) {
    Conserved(s) && OneAtATime(s) && CopyOk(s) && HandoverOk(s.sender)
  }

  // ---------------------------------------------------------------- every event keeps it

  lemma SourceKeeps(s: State, e: SourceEvent)
    requires Inv(s) && SourceEnabled(s, e)
    ensures Inv(SourceNext(s, e))
  {
    match e {
      case Generate(_) =>
      case Finish =>
      case Free =>
      case MigrateOut =>
      case ProcessOutQueue =>
      case SendMeta =>
    }
  }

  lemma CallKeeps(s: State, e: CallEvent)
    requires Inv(s) && s.src.rpc
    ensures Inv(CallNext(s, e))
  {
    match e {
      case CallFails =>
      case CallDeclined =>
      case CallDelivered =>
    }
  }

  lemma TransferKeeps(s: State, e: TransferEvent)
    requires Inv(s) && TransferEnabled(s, e)
    ensures Inv(TransferNext(s, e))
  {
    match e {
      case Register =>
      case Transfer(_) =>
      case MissedPull(_) =>
    }
  }

  lemma QueueKeeps(s: State, e: QueueEvent)
    requires Inv(s) && QueueEnabled(s, e)
    ensures Inv(QueueNext(s, e))
  {
    match e {
      case ConnectorOutput =>
      case SuccessQueue =>
      case FailedQueue =>
    }
  }

  lemma CopyKeeps(s: State, e: CopyEvent)
    requires Inv(s) && CopyEnabled(s, e)
    ensures Inv(CopyNext(s, e))
  {
    match e {
      case AddCopy =>
      case Deliver =>
      case CopyGenerates(_) =>
      case CopyFinishes =>
    }
  }

  lemma StepKeeps(s: State, e: Event)
    requires Inv(s) && Enabled(s, e)
    ensures Inv(Next(s, e))
  {
    match e {
      case AtSource(source) => SourceKeeps(s, source);
      case OnCall(call) => CallKeeps(s, call);
      case OnTransfer(transfer) => TransferKeeps(s, transfer);
      case InQueue(queue) => QueueKeeps(s, queue);
      case AtCopy(copy) => CopyKeeps(s, copy);
    }
  }

  lemma {:induction false} RunKeeps(s: State, events: seq<Event>, t: State)
    requires Inv(s) && Runs(s, events, t)
    ensures Inv(t)
    decreases |events|
  {
    if events == [] {
    } else {
      StepKeeps(s, events[0]);
      RunKeeps(Next(s, events[0]), events[1..], t);
    }
  }

  lemma InitHolds(tokens: seq<Token>)
    ensures Inv(Init(tokens))
  {
  }

  // ---------------------------------------------------------------- what follows in every reachable state

  ghost predicate Reachable(s: State) {
    exists tokens, events :: Runs(Init(tokens), events, s)
  }

  lemma ReachableInv(s: State)
    requires Reachable(s)
    ensures Inv(s)
  {
    var tokens, events :| Runs(Init(tokens), events, s);
    InitHolds(tokens);
    RunKeeps(Init(tokens), events, s);
  }

  /** Who has the request: the source, a hand-over message, or the destination. */
  function Owners(s: State): nat {
    Flag(s.sender.status != Handed)
    + Flag(exists k :: s.dst.handled <= k < |s.sender.sent| && s.sender.sent[k].Update?)
    + Flag(s.dst.copy.Ready? || s.dst.copy.Complete?)
  }

  /** The request is never lost and never on two engines: it always has exactly one owner. */
  lemma ExactlyOneOwner(s: State)
    requires Reachable(s)
    ensures Owners(s) == 1
    ensures !(s.sender.status == Live && s.dst.copy.Ready?)
  {
    ReachableInv(s);
    if s.sender.status == Handed && s.dst.handled == 0 {
      assert s.sender.sent[0].Update?;
    }
  }

  /** At most one verdict is ever sent, and an accepted migration without one is still announced or registered. */
  lemma AtMostOneVerdict(s: State)
    requires Reachable(s)
    ensures |s.sender.sent| <= 1
    ensures s.past.accepted == |s.sender.sent| + Flag(s.sender.path) + Flag(s.wire.registerMsg)
  {
    ReachableInv(s);
  }

  /** Events by which the two engines move a migration on. */
  predicate MovesOn(e: Event) {
    e == AtSource(SendMeta) || e.OnTransfer? || e.InQueue? || e == AtCopy(AddCopy) || e == AtCopy(Deliver)
  }

  /** How many such events can still change something. */
  function Rank(s: State): nat {
    Flag(s.dst.copy.Queued?) + Flag(s.wire.registerMsg) + Flag(s.src.sendQueued)
    + 5 * Flag(s.past.accepted > 0 && !s.dst.pulled)
    + 4 * (s.wire.reportOk + s.wire.reportFail) + 3 * s.sender.success + 2 * s.sender.failed
    + if s.dst.handled <= |s.sender.sent| then |s.sender.sent| - s.dst.handled else 0
  }

  lemma MovingOnIsBounded(s: State, e: Event)
    requires Reachable(s) && Enabled(s, e) && MovesOn(e)
    ensures Next(s, e) == s || Rank(Next(s, e)) < Rank(s) <= 8
  {
    ReachableInv(s);
    RankIsBounded(s);
    RankDrops(s, e);
  }

  lemma RankIsBounded(s: State)
    requires Conserved(s) && OneAtATime(s) && CopyOk(s)
    ensures Rank(s) <= 8
  {
  }

  lemma RankDrops(s: State, e: Event)
    requires Conserved(s) && OneAtATime(s) && CopyOk(s) && Enabled(s, e) && MovesOn(e)
    ensures Next(s, e) == s || Rank(Next(s, e)) < Rank(s)
  {
    match e {
      case AtSource(_) =>
      case OnTransfer(transfer) => TransferRank(s, transfer);
      case InQueue(queue) => QueueRank(s, queue);
      case AtCopy(_) =>
    }
  }

  lemma TransferRank(s: State, e: TransferEvent)
    requires Conserved(s) && OneAtATime(s) && CopyOk(s) && TransferEnabled(s, e)
    ensures Rank(TransferNext(s, e)) < Rank(s)
  {
    match e {
      case Register =>
      case Transfer(_) =>
      case MissedPull(_) =>
    }
  }

  lemma QueueRank(s: State, e: QueueEvent)
    requires Conserved(s) && QueueEnabled(s, e)
    ensures QueueNext(s, e) == s || Rank(QueueNext(s, e)) < Rank(s)
  {
    match e {
      case ConnectorOutput =>
      case SuccessQueue =>
      case FailedQueue =>
    }
  }

  predicate Idle(s: State, e: Event) {
    Enabled(s, e) ==> Next(s, e) == s
  }

  ghost predicate Settled(s: State) {
    forall e :: MovesOn(e) ==> Idle(s, e)
  }

  /**
   When nothing more can move, an accepted migration has had exactly one verdict and both engines have
   acted on it, iff the pull was not missed; after a missed pull the source keeps the request and the
   copy waits for good.
   */
  lemma SettledMeansDecidedIff(s: State)
    requires Reachable(s) && Settled(s) && s.past.accepted == 1
    ensures |s.sender.sent| == 1 == s.dst.handled <==> !s.past.missed
    ensures s.past.missed ==> s.sender.sent == [] && s.sender.status != Handed && s.dst.copy.WaitingKv?
    ensures !s.past.missed && s.sender.sent[0].Update? ==>
              s.sender.status == Handed && (s.dst.copy.Ready? || s.dst.copy.Complete?)
    ensures !s.past.missed && s.sender.sent[0].Abort? ==> s.sender.status != Handed && s.dst.copy.NoCopy?
  {
    ReachableInv(s);
    NothingPending(s);
  }

  lemma NothingPending(s: State)
    requires Inv(s) && Settled(s) && s.past.accepted == 1
    ensures s.dst.pulled && !s.wire.registerMsg && s.wire.reportOk == 0 == s.wire.reportFail
    ensures s.dst.handled == |s.sender.sent|
    ensures s.sender.path ==> s.sender.success == 0 == s.sender.failed
  {
    assert Idle(s, AtCopy(AddCopy));
    assert Idle(s, OnTransfer(Register));
    assert Idle(s, OnTransfer(MissedPull(true)));
    assert Idle(s, InQueue(ConnectorOutput));
    assert Idle(s, InQueue(SuccessQueue));
    assert Idle(s, InQueue(FailedQueue));
    assert Idle(s, AtCopy(Deliver));
  }

  lemma Extend(tokens: seq<Token>, events: seq<Event>, s: State, e: Event)
    requires Runs(Init(tokens), events, s) && Enabled(s, e)
    ensures Runs(Init(tokens), events + [e], Next(s, e))
  {
    RunsExtend(Init(tokens), events, s, e);
  }

  lemma {:induction false} RunsExtend(s: State, events: seq<Event>, t: State, e: Event)
    requires Runs(s, events, t) && Enabled(t, e)
    ensures Runs(s, events + [e], Next(t, e))
    decreases |events|
  {
    var longer := events + [e];
    if events == [] {
      assert longer[1..] == [];
      assert Runs(Next(t, e), longer[1..], Next(t, e));
    } else {
      RunsExtend(Next(s, events[0]), events[1..], t, e);
      assert longer[1..] == events[1..] + [e];
    }
  }

  lemma OneMore(s: State, e: Event) returns (t: State)
    requires Reachable(s) && Enabled(s, e)
    ensures t == Next(s, e) && Reachable(t)
  {
    t := Next(s, e);
    var tokens, events :| Runs(Init(tokens), events, s);
    Extend(tokens, events, s, e);
  }

  /** A destination that pulls before the source worker has its metadata: the migration stays undecided for good. */
  lemma EarlyPullStrands(tokens: seq<Token>)
    ensures exists s :: Reachable(s) && Settled(s) && s.past.accepted == 1 && s.past.missed && s.sender.sent == []
  {
    assert Runs(Init(tokens), [], Init(tokens));
    var s := OneMore(Init(tokens), AtSource(MigrateOut));
    s := OneMore(s, AtSource(ProcessOutQueue));
    s := OneMore(s, OnCall(CallDelivered));
    s := OneMore(s, AtCopy(AddCopy));
    s := OneMore(s, OnTransfer(MissedPull(false)));
    s := OneMore(s, AtSource(SendMeta));
    s := OneMore(s, OnTransfer(Register));
    assert Settled(s);
  }

  /** A hand-over always finds the copy waiting, and leaves it with exactly the tokens the source released. */
  lemma HandoverIsExact(s: State)
    requires Reachable(s) && Enabled(s, AtCopy(Deliver)) && s.sender.sent[s.dst.handled].Update?
    ensures s.dst.copy.WaitingKv?
    ensures Next(s, AtCopy(Deliver)).dst.copy == Ready(s.sender.sent[s.dst.handled].tokens)
    ensures s.sender.sent[s.dst.handled].tokens == s.sender.tokens
  {
    ReachableInv(s);
    assert s.dst.copy.tokens + s.sender.tokens[|s.dst.copy.tokens|..] == s.sender.tokens;
  }

  // ---------------------------------------------------------------- the token stream

  function Emitted(e: Event): seq<Token> {
    if e.AtSource? && e.source.Generate? then [e.source.token]
    else if e.AtCopy? && e.copy.CopyGenerates? then [e.copy.token]
    else []
  }

  function Stream(events: seq<Event>): seq<Token>
    decreases |events|
  {
    if events == [] then [] else Emitted(events[0]) + Stream(events[1..])
  }

  /** The output of the request as its owner has it. */
  function Output(s: State): seq<Token> {
    if s.dst.copy.Ready? || s.dst.copy.Complete? then s.dst.copy.tokens else s.sender.tokens
  }

  lemma StepExtendsOutput(s: State, e: Event)
    requires Inv(s) && Enabled(s, e)
    ensures Output(Next(s, e)) == Output(s) + Emitted(e)
  {
    if e == AtCopy(Deliver) && s.sender.sent[s.dst.handled].Update? {
      assert s.dst.copy.tokens + s.sender.tokens[|s.dst.copy.tokens|..] == s.sender.tokens;
    }
  }

  /**
   Across any run, migrated or not, the output is the initial tokens followed by every generated token
   once, in order.
   */
  lemma {:induction false} OutputIsTheStream(s: State, events: seq<Event>, t: State)
    requires Inv(s) && Runs(s, events, t)
    ensures Output(t) == Output(s) + Stream(events)
    decreases |events|
  {
    if events == [] {
    } else {
      var next := Next(s, events[0]);
      StepKeeps(s, events[0]);
      StepExtendsOutput(s, events[0]);
      OutputIsTheStream(next, events[1..], t);
      Regroup(Output(s), Emitted(events[0]), Stream(events[1..]), Output(next), Output(t));
    }
  }

  lemma Regroup(a: seq<Token>, b: seq<Token>, c: seq<Token>, ab: seq<Token>, abc: seq<Token>)
    requires ab == a + b && abc == ab + c
    ensures abc == a + (b + c)
  {
  }

  /** A request that finished at its source before the hand-over is aborted at the destination, never run there. */
  lemma FinishedIsNeverHandedOver(s: State, e: Event)
    requires Reachable(s) && Enabled(s, e) && (s.sender.status == Finished || s.sender.status == Freed)
    ensures Next(s, e).sender.status != Handed && !Next(s, e).dst.copy.Ready? && !Next(s, e).dst.copy.Complete?
  {
    ReachableInv(s);
  }
}
