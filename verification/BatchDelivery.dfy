/** What a finalizer delivers: all shards, unless it left one out when it listed or appended them. */
module BatchDelivery {
  import opened BatchStatus
  import opened BatchProtocol
  import opened Wrappers
  import opened BatchSafety
  import opened BatchTheorems

  /** The shards a finalizer has appended or still will, against the shards it has left out. */
  ghost predicate PcDelivery(s: State, pc: Pc) {
    pc.F? ==>
      match pc.f
      case FList => s.task.delivered.None? && !s.log.gap
      case FKeys(todo) => s.task.delivered.None? && todo <= Shards(s.total) && (todo == Shards(s.total) <==> !s.log.gap)
      case FAppend(todo, _, got) =>
        && s.task.delivered.None? && got + todo <= Shards(s.total) && got !! todo
        && (got + todo == Shards(s.total) <==> !s.log.gap)
      case FFields(got) => s.task.delivered.None? && (got == Shards(s.total) <==> !s.log.gap)
      case _ => true
  }

  ghost predicate SharedDelivery(s: State) {
    && (s.log.gap || s.task.delivered.Some? ==> Beyond(s.task.at, 4))
    && (s.task.delivered.Some? ==> (s.task.delivered.value == Shards(s.total) <==> !s.log.gap))
  }

  ghost predicate DeliveryOk(s: State) {
    SharedDelivery(s) && forall a :: PcDelivery(s, PcOf(s, a))
  }

  ghost predicate DeliveryKept(s: State, t: State) {
    t.log.gap == s.log.gap && t.task.delivered == s.task.delivered && t.total == s.total
  }

  // ---------------------------------------------------------------- the other roles

  lemma ValidatorDelivery(s: State, a: ActorId, pc: VPc, c: Choice)
    ensures DeliveryKept(s, ValidatorStep(s, a, pc, c).0)
  {
    match pc {
      case VMove(_) =>
      case VClean(stage, _) => CleanDelivery(s, stage);
      case VFinish =>
      case VFailMove =>
      case _ =>
    }
  }

  lemma CleanDelivery(s: State, stage: nat)
    ensures DeliveryKept(s, CleanStage(s, stage))
  {
    if stage < 2 {
    } else if stage < 4 {
    } else {
    }
  }

  lemma WorkerDelivery(s: State, a: ActorId, pc: WPc, c: Choice)
    ensures DeliveryKept(s, WorkerStep(s, a, pc, c).0)
  {
    match pc {
      case WStart(_) =>
      case WDone(_) =>
      case WAbandon(_) =>
      case WMove =>
      case _ =>
    }
  }

  lemma CancelDelivery(s: State, a: ActorId, pc: CPc, c: Choice)
    ensures DeliveryKept(s, CancelReactorStep(s, a, pc, c).0)
  {
    match pc {
      case CClean(stage, _) => CleanDelivery(s, stage);
      case _ =>
    }
  }

  lemma HandlerDelivery(s: State, a: ActorId, pc: HPc, c: Choice)
    ensures DeliveryKept(s, CancelHandlerStep(s, a, pc, c).0)
  {
  }

  lemma ExpirerDelivery(s: State, a: ActorId, pc: EPc, c: Choice)
    ensures DeliveryKept(s, ExpireStep(s, a, pc, c).0)
  {
  }

  /** Only finalizers touch what is delivered. */
  lemma OthersKeepDelivery(s: State, a: ActorId, pc: Pc, c: Choice)
    requires !pc.F?
    ensures DeliveryKept(s, ActorStep(s, a, pc, c).0)
  {
    if c != Crash {
      match pc {
        case V(v) => ValidatorDelivery(s, a, v, c);
        case W(w) => WorkerDelivery(s, a, w, c);
        case H(h) => HandlerDelivery(s, a, h, c);
        case C(r) => CancelDelivery(s, a, r, c);
        case E(e) => ExpirerDelivery(s, a, e, c);
        case Idle =>
        case Unlock =>
      }
    }
  }

  lemma OthersNeverFinalize(s: State, a: ActorId, pc: Pc, c: Choice)
    requires !pc.F?
    ensures ActorStep(s, a, pc, c).1.F? ==> ActorStep(s, a, pc, c).1 == F(FLock)
  {
  }

  // ---------------------------------------------------------------- the finalizer

  /** The finalizer's own step: what it has left out so far is what it will not deliver. */
  ghost predicate Delivers(s: State, o: Outcome) {
    o.0.total == s.total && SharedDelivery(o.0) && PcDelivery(o.0, o.1)
  }

  lemma FinalizerMovesDelivery(s: State, a: ActorId, pc: FPc, c: Choice)
    requires Local(s, a, F(pc)) && SharedDelivery(s) && (pc.FLock? || pc.FMove?)
    ensures Delivers(s, FinalizerStep(s, a, pc, c))
  {
    MoveMeaning(s.task.at, Finalizing, Finalize);
  }

  lemma FinalizerListsDelivery(s: State, a: ActorId, pc: FPc, c: Choice)
    requires Local(s, a, F(pc)) && SharedDelivery(s) && PcDelivery(s, F(pc)) && (pc.FList? || pc.FKeys?)
    ensures Delivers(s, FinalizerStep(s, a, pc, c))
  {
    assert Beyond(s.task.at, 4);
  }

  lemma FinalizerAppendsDelivery(s: State, a: ActorId, pc: FPc, c: Choice)
    requires Beyond(s.task.at, 4) && SharedDelivery(s) && PcDelivery(s, F(pc)) && pc.FAppend?
    ensures Delivers(s, FinalizerStep(s, a, pc, c))
  {
    if c.Take? && c.shard in pc.todo {
      var left := pc.todo - {c.shard};
      assert c.shard in Shards(s.total) && c.shard !in pc.got + left;
      assert pc.got + {c.shard} + left == pc.got + pc.todo;
    } else if pc.todo == {} {
      assert pc.got + pc.todo == pc.got;
    }
  }

  lemma FinalizerEndsDelivery(s: State, a: ActorId, pc: FPc, c: Choice)
    requires Local(s, a, F(pc)) && SharedDelivery(s) && PcDelivery(s, F(pc))
    requires pc.FFields? || pc.FComplete? || pc.FClean?
    ensures Delivers(s, FinalizerStep(s, a, pc, c))
  {
    match pc {
      case FFields(_) => assert Beyond(s.task.at, 4);
      case FComplete => MoveMeaning(s.task.at, Finalize, Completed);
      case FClean(stage) => CleanDelivery(s, stage); CleanShrinks(s, stage);
    }
  }

  lemma FinalizerDelivery(s: State, a: ActorId, pc: FPc, c: Choice)
    requires Local(s, a, F(pc)) && SharedDelivery(s) && PcDelivery(s, F(pc))
    ensures Delivers(s, FinalizerStep(s, a, pc, c))
  {
    if pc.FLock? || pc.FMove? { FinalizerMovesDelivery(s, a, pc, c); }
    else if pc.FList? || pc.FKeys? { FinalizerListsDelivery(s, a, pc, c); }
    else if pc.FAppend? { AssemblingIsLate(s, pc); FinalizerAppendsDelivery(s, a, pc, c); }
    else { FinalizerEndsDelivery(s, a, pc, c); }
  }

  lemma AssemblingIsLate(s: State, pc: FPc)
    requires StatusOk(s.task, s.log) && FOk(s, pc) && Assembling(pc)
    ensures Beyond(s.task.at, 4)
  {
  }

  // ---------------------------------------------------------------- any event

  /** A step of `a` on the shared state, with nobody else assembling if it touched what is delivered. */
  lemma SettleDelivery(s: State, t: State, a: ActorId, pc: Pc)
    requires Inv(s) && DeliveryOk(s) && t.pcs == s.pcs && t.total == s.total && SharedDelivery(t) && PcDelivery(t, pc)
    requires DeliveryKept(s, t) || s.lock == Some(a)
    ensures DeliveryOk(At(t, a, pc))
  {
    var u := At(t, a, pc);
    forall b
      ensures PcDelivery(u, PcOf(u, b))
    {
      if b != a {
        assert PcDelivery(s, PcOf(s, b)) && PcOk(s, b, PcOf(s, b));
      }
    }
  }

  lemma ActKeepsDelivery(s: State, a: ActorId, c: Choice)
    requires Inv(s) && DeliveryOk(s)
    ensures DeliveryOk(Next(s, Act(a, c)))
  {
    var pc := PcOf(s, a);
    assert PcOk(s, a, pc) && PcDelivery(s, pc);
    var o := ActorStep(s, a, pc, c);
    ActorOk(s, a, pc, c);
    if pc.F? && c != Crash {
      FinalizerDelivery(s, a, pc.f, c);
      UnlockedFinalizer(s, a, pc.f, c);
    } else if c == Crash {
    } else {
      OthersKeepDelivery(s, a, pc, c);
      OthersNeverFinalize(s, a, pc, c);
    }
    SettleDelivery(s, o.0, a, o.1);
  }

  lemma UnlockedFinalizer(s: State, a: ActorId, pc: FPc, c: Choice)
    requires PcOk(s, a, F(pc))
    ensures DeliveryKept(s, FinalizerStep(s, a, pc, c).0) || s.lock == Some(a)
  {
  }

  lemma EventKeepsDelivery(s: State, e: Event)
    requires Inv(s) && DeliveryOk(s)
    ensures DeliveryOk(Next(s, e))
  {
    if e.Act? {
      ActKeepsDelivery(s, e.actor, e.choice);
    } else {
      var t := Next(s, e);
      forall b
        ensures PcDelivery(t, PcOf(t, b))
      {
        assert PcDelivery(s, PcOf(s, b));
      }
    }
  }

  lemma {:induction false} ReachableDelivery(total: nat, schedule: seq<Event>)
    ensures DeliveryOk(Run(Initial(total), schedule))
    decreases |schedule|
  {
    if schedule == [] {
      assert forall a :: PcOf(Initial(total), a) == Idle;
    } else {
      var init, e := schedule[..|schedule| - 1], schedule[|schedule| - 1];
      ReachableDelivery(total, init);
      Reachable(total, init);
      EventKeepsDelivery(Run(Initial(total), init), e);
    }
  }

  /**
   Over every schedule: a task recorded as completed delivers the results of every shard iff the
   finalizer listed every shard and found the result files of each when it came to append them.
   */
  lemma DeliversAllIff(total: nat, schedule: seq<Event>)
    ensures var s := Run(Initial(total), schedule);
            s.task.delivered.Some? ==> (s.task.delivered.value == Shards(total) <==> !Has(Gap, total, schedule))
  {
    ReachableDelivery(total, schedule);
    LogRecordsMishaps(total, schedule);
    TotalIsFixed(total, schedule);
  }
}
