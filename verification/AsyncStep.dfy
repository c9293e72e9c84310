/** The inductive step: whatever happens next, the invariant still holds. */
module AsyncStep {
  import opened Futures
  import opened AsyncProtocol
  import opened AsyncInvariant
  import opened AsyncPreservation

  lemma ArmKeeps(s: State, a: Id, f: Id, resume: int)
    requires At(s, a, InAwait(AwaitArm(f, resume)))
    ensures Inv(ArmAwait(s, a, f, resume))
  {
    if s.term.lifecycle != Active {
      ReturnKeeps(s, a);
    } else {
      assert ActOk(s, a);
      FrameAlive(s, a);
      assert s.nextReg !in s.regs;
      ArmKeepsCore(s, a, f, resume);
      ArmKeepsFutures(s, a, f, resume);
      ArmKeepsRegs(s, a, f, resume);
      ArmKeepsActs(s, a, f, resume);
    }
  }

  /** Running the callback of `t`, from delivery or directly from registration. */
  lemma InvokeKeeps(s: State, s1: State, a: Id, t: Id)
    requires Inv(s) && Invokes(s, s1, a, t)
    ensures Inv(InvokeState(s, s1, a, t))
  {
    assert ActOk(s, a) && RegOk(s, t);
    assert s.nextAct !in s.acts;
    InvokeKeepsFutures(s, s1, a, t);
    InvokeKeepsRegs(s, s1, a, t);
    if s.acts[a].pc.InAwait? {
      SyncAwaitKeepsCore(s, s1, a, t);
      SyncAwaitKeepsActs(s, s1, a, t);
    } else if s.regs[t].isAwait {
      DeliverAwaitKeepsCore(s, s1, a, t);
      DeliverAwaitKeepsActs(s, s1, a, t);
    } else {
      InvokeClientKeepsCore(s, s1, a, t);
      InvokeClientKeepsActs(s, s1, a, t);
    }
  }

  lemma RegisterKeeps(s: State, a: Id, c: Id)
    requires At(s, a, InAwait(AwaitRegister(c)))
    ensures Inv(RegisterAwait(s, a, c))
  {
    if s.futures[s.regs[c].home].future.settlement.Pending? {
      assert ActOk(s, a) && RegOk(s, c);
      QueueKeepsCore(s, a, c);
      QueueKeepsFutures(s, a, c);
      QueueKeepsRegs(s, a, c);
      assert FutureOk(s.regs, s.term.completion, s.regs[c].home, s.futures[s.regs[c].home]);
      QueueKeepsActs(s, a, c);
    } else {
      InvokeKeeps(s, End(s, a), a, c);
      assert ActOk(s, a);
      SyncInvoke(s, a, c);
    }
  }

  /** Ending the call before or after the callback has started gives the same state. */
  lemma SyncInvoke(s: State, a: Id, c: Id)
    requires a in s.acts && a < s.nextAct && c in s.regs && s.regs[c].home in s.futures
    requires s.futures[s.regs[c].home].future.settlement.Settled?
    ensures RegisterAwait(s, a, c) == InvokeState(s, End(s, a), a, c)
  {
    assert RegisterAwait(s, a, c).acts == InvokeState(s, End(s, a), a, c).acts;
  }

  lemma AdvanceAwaitKeeps(s: State, a: Id, step: AwaitStep)
    requires At(s, a, InAwait(step))
    ensures Inv(AdvanceAwait(s, a, step))
  {
    match step
    case AwaitEnter(f, resume) =>
      assert ActOk(s, a);
      AwaitShift(s, a, InAwait(AwaitProbe(f, resume)));
    case AwaitProbe(f, resume) => AwaitProbeKeeps(s, a, f, resume);
    case AwaitCheck(f, resume) => AwaitCheckKeeps(s, a, f, resume);
    case AwaitPublish(resume, value, status) => AwaitPublishKeeps(s, a, resume, value, status);
    case AwaitArm(f, resume) => ArmKeeps(s, a, f, resume);
    case AwaitRegister(c) => RegisterKeeps(s, a, c);
    case AwaitToken(c, id) => AwaitTokenKeeps(s, a, c, id);
  }

  lemma RemoveKeeps(s: State, a: Id, after: AfterInvalidate, f: Id, c: Id, id: int)
    requires At(s, a, InInvalidate(after, InvRemove(f, c, id)))
    ensures Inv(InvalidateRemove(s, a, after, f, c, id))
  {
    if RemoveRegion(s.futures[f].future, id).1.None? {
      RemoveMissKeeps(s, a, after, f, c, id);
    } else {
      RemovedIsSaved(s, a, after, f, c, id);
      assert ActOk(s, a) && RegOk(s, c);
      assert FutureOk(s.regs, s.term.completion, f, s.futures[f]);
      assert Detaches(s, a, after, f, c, id);
      RemoveKeepsCore(s, a, after, f, c, id);
      RemoveKeepsFutures(s, a, after, f, c, id);
      RemoveKeepsRegs(s, a, after, f, c, id);
      RemoveKeepsActs(s, a, after, f, c, id);
    }
  }

  lemma ReleaseKeeps(s: State, a: Id, c: Id, next: Pc)
    requires Inv(s) && a in s.acts && Releases(s.acts[a].pc, next, c) && c in s.regs && s.regs[c].home in s.futures
    requires ActsOk(Goto(ReleaseAwaited(s, c), a, next))
    ensures Inv(Goto(ReleaseAwaited(s, c), a, next))
  {
    assert ActOk(s, a) && RegOk(s, c);
    ReleaseKeepsCore(s, a, c, next);
    ReleaseKeepsFutures(s, a, c, next);
    ReleaseKeepsRegs(s, a, c, next);
  }

  lemma AdvanceInvalidateKeeps(s: State, a: Id, after: AfterInvalidate, step: InvStep)
    requires At(s, a, InInvalidate(after, step))
    ensures Inv(AdvanceInvalidate(s, a, after, step))
  {
    match step
    case InvRegion =>
      assert ActOk(s, a);
      InvalidateKeepsCore(s, a, after);
      InvalidateKeepsFutures(s, a, after);
      InvalidateKeepsRegs(s, a, after);
      assert Taken(s) in s.regs ==> RegOk(s, Taken(s));
      InvalidateKeepsActs(s, a, after);
    case InvRemove(f, c, id) => RemoveKeeps(s, a, after, f, c, id);
    case InvDrop(f, c, t) =>
      DropNotLast(s, a, after, f, c, t);
      assert ActOk(s, a);
      DropKeepsCore(s, a, after, f, c, t);
      DropKeepsFutures(s, a, after, f, c, t);
      DropKeepsRegs(s, a, after, f, c, t);
      DropKeepsActs(s, a, after, f, c, t);
    case InvRelease(f, c) =>
      assert ActOk(s, a) && RegOk(s, c);
      InvalidateReleaseKeepsActs(s, a, after, f, c);
      ReleaseKeeps(s, a, c, AfterInvalidation(after));
  }

  lemma SettleKeeps(s: State, a: Id, f: Id, settlement: Settlement, next: AfterDeliver)
    requires Inv(s) && Settles(s, a, f, settlement, next)
    ensures Inv(SettleBy(s, a, f, settlement, next))
  {
    var s' := SettleBy(s, a, f, settlement, next);
    assert ActOk(s, a) && FutureOk(s.regs, s.term.completion, f, s.futures[f]);
    SettleKeepsCore(s, a, f, settlement, next);
    SettleKeepsFutures(s, a, f, settlement, next);
    SettleKeepsSelf(s, a, f, settlement, next);
    forall u | u in s'.regs ensures RegOk(s', u) {
      SettleKeepsReg(s, a, f, settlement, next, u);
    }
    if next.ToPublish? { WinnerAlone(s, a); }
    forall b | b in s'.acts ensures ActOk(s', b) {
      if b != a { SettleKeepsOther(s, a, f, settlement, next, b); }
    }
  }

  lemma GuardKeeps(s: State, a: Id, kind: Terminal)
    requires At(s, a, InTerminal(kind, TermGuard))
    ensures Inv(Goto(RetainFrame(s, GuardOwner(a)), a, InTerminal(kind, TermStore)))
  {
    FrameAlive(s, a);
    assert ActOk(s, a) && s.nextReg !in s.regs;
    GuardKeepsCore(s, a, kind);
    GuardKeepsRegs(s, a, kind);
    GuardKeepsActs(s, a, kind);
  }

  lemma UnguardKeeps(s: State, a: Id, kind: Terminal)
    requires At(s, a, InTerminal(kind, TermUnguard))
    ensures Inv(End(ReleaseFrame(s, GuardOwner(a), s.acts[a].thread), a))
  {
    WinnerAlone(s, a);
    FrameAlive(s, a);
    assert ActOk(s, a) && s.nextReg !in s.regs && s.nextAct !in s.acts;
    UnguardKeepsCore(s, a, kind);
    UnguardKeepsRegs(s, a, kind);
    UnguardKeepsActs(s, a, kind);
  }

  lemma AdvanceTerminalKeeps(s: State, a: Id, kind: Terminal, step: TermStep)
    requires At(s, a, InTerminal(kind, step))
    ensures Inv(AdvanceTerminal(s, a, kind, step))
  {
    match step
    case TermClaim => ClaimKeeps(s, a, kind);
    case TermEnter => TermEnterKeeps(s, a, kind);
    case TermCas => CasKeeps(s, a, kind);
    case TermGuard => GuardKeeps(s, a, kind);
    case TermStore => StoreKeeps(s, a, kind);
    case TermSettle => SettleKeeps(s, a, s.term.completion, SettlementOf(kind), ToPublish(kind));
    case TermPublish => PublishKeeps(s, a, kind);
    case TermUnguard => UnguardKeeps(s, a, kind);
  }

  lemma AcceptKeeps(s: State, a: Id, c: Id, value: int, status: int)
    requires At(s, a, InCallback(c, CbRegion(value, status)))
    ensures Inv(AcceptCallback(s, a, c, value, status))
  {
    if IsCurrent(s, c) {
      AcceptKeepsCore(s, a, c, value, status);
      AcceptKeepsFutures(s, a, c, value, status);
      AcceptKeepsRegs(s, a, c, value, status);
      AcceptKeepsActs(s, a, c, value, status);
    } else {
      StaleKeeps(s, a, c, value, status);
    }
  }

  lemma ExitKeeps(s: State, a: Id, c: Id)
    requires At(s, a, InCallback(c, CbExit))
    ensures Inv(ExitCallback(s, a, c))
  {
    assert ActOk(s, a) && RegOk(s, c);
    assert s.nextAct !in s.acts;
    ExitKeepsCore(s, a, c);
    ExitKeepsFutures(s, a, c);
    ExitKeepsRegs(s, a, c);
    FrameAlive(s, a);
    ExitKeepsActs(s, a, c);
  }

  lemma AdvanceCallbackKeeps(s: State, a: Id, c: Id, step: CbStep)
    requires At(s, a, InCallback(c, step))
    ensures Inv(AdvanceCallback(s, a, c, step))
  {
    match step
    case CbEnter(value, status) => CallbackEnterKeeps(s, a, c, value, status);
    case CbRegion(value, status) => AcceptKeeps(s, a, c, value, status);
    case CbReleaseFuture =>
      CallbackReleaseKeepsActs(s, a, c);
      ReleaseKeeps(s, a, c, InCallback(c, CbRequest));
    case CbRequest =>
      assert ActOk(s, a) && s.nextReg !in s.regs;
      RequestKeepsCore(s, a, c);
      RequestKeepsRegs(s, a, c);
      RequestKeepsActs(s, a, c);
    case LoopCheck(passes) =>
      assert ActOk(s, a) && s.nextReg !in s.regs;
      FrameAlive(s, a);
      LoopKeepsCore(s, a, c, passes);
      LoopKeepsRegs(s, a, c, passes);
      LoopKeepsActs(s, a, c, passes);
    case InPass(passes) => EndPassKeeps(s, a, c, passes);
    case LoopYield => RelockKeeps(s, a, c);
    case CbExit => ExitKeeps(s, a, c);
  }

  lemma DeliverKeeps(s: State, a: Id, f: Id, pending: seq<Entry>, next: AfterDeliver)
    requires At(s, a, InDeliver(f, pending, next))
    ensures Inv(DeliverNext(s, a, f, pending, next))
  {
    if pending != [] {
      assert ActOk(s, a);
      InvokeKeeps(s, Goto(s, a, InDeliver(f, pending[1..], next)), a, pending[0].token);
    } else if next.ToRelease? {
      DtorDeliveredKeeps(s, a, f);
    } else {
      DeliveredKeeps(s, a, f, next);
    }
  }

  lemma AdvanceDtorKeeps(s: State, a: Id, step: DtorStep)
    requires At(s, a, InDtor(step))
    ensures Inv(AdvanceDtor(s, a, step))
  {
    match step
    case DtorStore => DtorStoreKeeps(s, a);
    case DtorAwaited => DtorAwaitedKeeps(s, a);
    case DtorSettle => SettleKeeps(s, a, s.term.completion, Settled(0, true), ToRelease);
    case DtorRelease => DtorReleaseKeeps(s, a);
  }

  lemma AdvanceKeeps(s: State, a: Id)
    requires Inv(s) && a in s.acts && Ready(s, a)
    ensures Inv(Advanced(s, a))
  {
    match s.acts[a].pc
    case InAwait(step) => AdvanceAwaitKeeps(s, a, step);
    case InInvalidate(after, step) => AdvanceInvalidateKeeps(s, a, after, step);
    case InTerminal(kind, step) => AdvanceTerminalKeeps(s, a, kind, step);
    case InFinish(f, settlement) => SettleKeeps(s, a, f, settlement, ToClient);
    case InDeliver(f, pending, next) => DeliverKeeps(s, a, f, pending, next);
    case InCallback(c, step) => AdvanceCallbackKeeps(s, a, c, step);
    case InDtor(step) => AdvanceDtorKeeps(s, a, step);
  }

  lemma ThenKeeps(s: State, f: Id)
    requires Inv(s) && f in s.futures
    ensures Inv(ThenRegister(s, f))
  {
    ThenKeepsCore(s, f);
    ThenKeepsFutures(s, f);
    ThenKeepsRegs(s, f);
    ThenKeepsActs(s, f);
  }

  lemma CloseKeeps(s: State, thread: int)
    requires Inv(s) && Enabled(s, CloseHandle(thread))
    ensures Inv(ReleaseFrame(s, HandleOwner, thread))
  {
    CloseKeepsCore(s, thread);
    CloseKeepsRegs(s, thread);
    CloseKeepsActs(s, thread);
  }

  /** Every step of every activity, and every new call, keeps the invariant. */
  lemma StepKeeps(s: State, l: Label)
    requires Inv(s) && Enabled(s, l)
    ensures Inv(Apply(s, l))
  {
    match l
    case Advance(a) => AdvanceKeeps(s, a);
    case StartAwait(thread, viaPass, f, resume) =>
      StartKeeps(s, Activity(thread, viaPass, InAwait(AwaitEnter(f, resume))));
    case StartTerminal(thread, viaPass, kind) => StartKeeps(s, Activity(thread, viaPass, InTerminal(kind, TermClaim)));
    case StartFinish(thread, f, value, cancel) =>
      StartKeeps(s, Activity(thread, false, InFinish(f, Settled(value, cancel))));
    case Then(f) => ThenKeeps(s, f);
    case CloseHandle(thread) => CloseKeeps(s, thread);
    case NewFuture(f) => ClientKeeps(s, f, FutureCell(FreshFuture, 1, {ClientHolder(0)}));
    case RetainFuture(f, k) => ClientKeeps(s, f, Hold(s.futures[f], ClientHolder(k)));
    case ReleaseFuture(f, k) => ClientKeeps(s, f, Unhold(s.futures[f], ClientHolder(k)));
  }
}
