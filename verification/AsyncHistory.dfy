/** What never goes back: how one step, and hence any part of a run, may change the record. */
module AsyncHistory {
  import opened Basics
  import opened Futures
  import opened AsyncProtocol
  import opened AsyncInvariant
  import opened AsyncPreservation

  // ---------- the order in which things may change ----------

  /** A claimed or called registration is never detached, a detached one is never called. */
  predicate PlaceReaches(p: Place, q: Place) {
    match p
    case Registering(_) => true
    case Queued => !q.Registering?
    case Claimed(_) => q == p || q.Calling? || q.Called?
    case Calling(_) => q == p || q.Called?
    case Detaching(_) => q == p || q.Detached?
    case Detached => q == p
    case Called => q == p
  }

  /** A registration keeps its identity, is called with one value only, and releases its future once. */
  predicate RegEvolves(r: Registration, r': Registration) {
    && r'.home == r.home && r'.isAwait == r.isAwait && r'.resume == r.resume && r'.generation == r.generation
    && PlaceReaches(r.place, r'.place)
    && (r.call.Settled? ==> r'.call == r.call)
    && (r.retain.ByActivity? ==> r'.retain == r.retain || r'.retain.Released?)
    && (r.retain.Released? ==> r'.retain.Released?)
  }

  /** Settlements are final. */
  predicate FutureEvolves(f: Future, f': Future) {
    f.settlement.Settled? ==> f'.settlement == f.settlement
  }

  predicate LifecycleReaches(p: Lifecycle, q: Lifecycle) {
    match p
    case Active => true
    case Completing => q == p || q.Completed? || q.Destroying?
    case Cancelling => q == p || q.Cancelled? || q.Destroying?
    case Completed => q == p || q.Destroying?
    case Cancelled => q == p || q.Destroying?
    case Destroying => q == p
  }

  /** The intent and its winner are final and the lifecycle moves forward. */
  predicate TermEvolves(t: Term, t': Term) {
    && t'.completion == t.completion
    && (t.intent != NoIntent ==> t'.intent == t.intent && t'.winner == t.winner)
    && LifecycleReaches(t.lifecycle, t'.lifecycle)
    && (t.byWinner ==> t'.byWinner && t'.result == t.result)
  }

  ghost predicate RegsEvolve(s: State, s': State) {
    forall t :: t in s.regs ==> t in s'.regs && RegEvolves(s.regs[t], s'.regs[t])
  }

  ghost predicate FuturesEvolve(s: State, s': State) {
    forall f :: f in s.futures ==> f in s'.futures && FutureEvolves(s.futures[f].future, s'.futures[f].future)
  }

  /** No await is registered once the lifecycle has left Active. */
  ghost predicate AwaitsClosed(s: State, s': State) {
    !s.term.lifecycle.Active? ==>
      && (s'.await.registered ==> s.await.registered && s'.await.context == s.await.context)
      && forall t :: t in s'.regs && t !in s.regs ==> !s'.regs[t].isAwait
  }

  ghost predicate Evolves(s: State, s': State) {
    RegsEvolve(s, s') && FuturesEvolve(s, s') && TermEvolves(s.term, s'.term) && AwaitsClosed(s, s')
  }

  lemma EvolvesTransitive(s: State, s': State, s'': State)
    requires Evolves(s, s') && Evolves(s', s'')
    ensures Evolves(s, s'')
  {
    assert forall t :: t in s.regs ==> t in s'.regs && t in s''.regs;
    assert forall f :: f in s.futures ==> f in s'.futures && f in s''.futures;
  }

  // ---------- one step ----------

  lemma ArmEvolves(s: State, a: Id, f: Id, resume: int)
    requires CoreAt(s, a, InAwait(AwaitArm(f, resume))) && s.nextReg !in s.regs
    ensures Evolves(s, ArmAwait(s, a, f, resume))
  {
  }

  lemma RegisterEvolves(s: State, a: Id, c: Id)
    requires CoreAt(s, a, InAwait(AwaitRegister(c))) && RegOk(s, c)
    ensures Evolves(s, RegisterAwait(s, a, c))
  {
  }

  lemma AwaitEvolves(s: State, a: Id, step: AwaitStep)
    requires CoreAt(s, a, InAwait(step)) && s.nextReg !in s.regs
    requires step.AwaitRegister? ==> RegOk(s, step.ctx)
    ensures Evolves(s, AdvanceAwait(s, a, step))
  {
    match step
    case AwaitArm(f, resume) => ArmEvolves(s, a, f, resume);
    case AwaitRegister(c) => RegisterEvolves(s, a, c);
    case _ =>
  }

  lemma InvalidateEvolves(s: State, a: Id, after: AfterInvalidate, step: InvStep)
    requires CoreAt(s, a, InInvalidate(after, step)) && RegsOk(s)
    requires step.InvRemove? ==>
      var removed := RemoveRegion(s.futures[step.fut].future, step.id).1;
      removed.Some? ==> removed == Some(step.saved) && s.regs[step.saved].place == Queued
    ensures Evolves(s, AdvanceInvalidate(s, a, after, step))
  {
    if step.InvRegion? {
      if s.await.registered { assert RegOk(s, s.await.context.value); }
      InvRegionEvolves(s, a, after);
    } else {
      InvRestEvolves(s, a, after, step);
    }
  }

  lemma InvRestEvolves(s: State, a: Id, after: AfterInvalidate, step: InvStep)
    requires CoreAt(s, a, InInvalidate(after, step)) && !step.InvRegion?
    requires step.InvRemove? ==>
      var removed := RemoveRegion(s.futures[step.fut].future, step.id).1;
      removed.Some? ==> removed == Some(step.saved) && s.regs[step.saved].place == Queued
    ensures Evolves(s, AdvanceInvalidate(s, a, after, step))
  {
  }

  lemma InvRegionEvolves(s: State, a: Id, after: AfterInvalidate)
    requires CoreAt(s, a, InInvalidate(after, InvRegion)) && (s.await.registered ==> RegOk(s, s.await.context.value))
    ensures Evolves(s, InvalidateRegion(s, a, after))
  {
  }

  lemma SettleEvolves(s: State, a: Id, f: Id, settlement: Settlement, next: AfterDeliver)
    requires Inv(s) && Settles(s, a, f, settlement, next)
    ensures Evolves(s, SettleBy(s, a, f, settlement, next))
  {
    assert FutureOk(s.regs, s.term.completion, f, s.futures[f]);
  }

  lemma TerminalEvolves(s: State, a: Id, kind: Terminal, step: TermStep)
    requires At(s, a, InTerminal(kind, step))
    ensures Evolves(s, AdvanceTerminal(s, a, kind, step))
  {
    assert ActOk(s, a);
    if step.TermSettle? {
      SettleEvolves(s, a, s.term.completion, SettlementOf(kind), ToPublish(kind));
    } else {
      RequestEvolves(s, a, kind, step);
    }
  }

  lemma RequestEvolves(s: State, a: Id, kind: Terminal, step: TermStep)
    requires CoreAt(s, a, InTerminal(kind, step)) && !step.TermSettle?
    ensures Evolves(s, AdvanceTerminal(s, a, kind, step))
  {
  }

  lemma DeliverEvolves(s: State, a: Id, f: Id, pending: seq<Entry>, next: AfterDeliver)
    requires At(s, a, InDeliver(f, pending, next))
    ensures Evolves(s, DeliverNext(s, a, f, pending, next))
  {
    assert ActOk(s, a);
    if pending != [] { assert RegOk(s, pending[0].token); }
    HandOver(s, a, f, pending, next);
  }

  lemma HandOver(s: State, a: Id, f: Id, pending: seq<Entry>, next: AfterDeliver)
    requires CoreAt(s, a, InDeliver(f, pending, next))
    requires pending != [] ==> pending[0].token in s.regs && RegOk(s, pending[0].token)
    ensures Evolves(s, DeliverNext(s, a, f, pending, next))
  {
  }

  lemma CallbackEvolves(s: State, a: Id, c: Id, step: CbStep)
    requires CoreAt(s, a, InCallback(c, step)) && c in s.regs && RegOk(s, c)
    ensures Evolves(s, AdvanceCallback(s, a, c, step))
  {
    if step.CbRegion? {
      AcceptEvolves(s, a, c, step.value, step.status);
    } else if step.CbExit? {
      ExitEvolves(s, a, c);
    }
  }

  lemma AcceptEvolves(s: State, a: Id, c: Id, value: int, status: int)
    requires CoreAt(s, a, InCallback(c, CbRegion(value, status))) && c in s.regs && RegOk(s, c)
    ensures Evolves(s, AcceptCallback(s, a, c, value, status))
  {
  }

  lemma ExitEvolves(s: State, a: Id, c: Id)
    requires CoreAt(s, a, InCallback(c, CbExit)) && c in s.regs && RegOk(s, c)
    ensures Evolves(s, ExitCallback(s, a, c))
  {
  }

  lemma DtorEvolves(s: State, a: Id, step: DtorStep)
    requires At(s, a, InDtor(step))
    ensures Evolves(s, AdvanceDtor(s, a, step))
  {
    DtorAlone(s, a);
    if step.DtorSettle? {
      SettleEvolves(s, a, s.term.completion, Settled(0, true), ToRelease);
    }
  }

  lemma AdvanceEvolves(s: State, a: Id)
    requires Inv(s) && a in s.acts && Ready(s, a)
    ensures Evolves(s, Advanced(s, a))
  {
    assert ActOk(s, a);
    match s.acts[a].pc
    case InAwait(step) =>
      assert s.nextReg !in s.regs;
      assert step.AwaitRegister? ==> RegOk(s, step.ctx);
      AwaitEvolves(s, a, step);
    case InInvalidate(after, step) =>
      if step.InvRemove? && RemoveRegion(s.futures[step.fut].future, step.id).1.Some? {
        RemovedIsSaved(s, a, after, step.fut, step.saved, step.id);
      }
      InvalidateEvolves(s, a, after, step);
    case InTerminal(kind, step) => TerminalEvolves(s, a, kind, step);
    case InFinish(f, settlement) => SettleEvolves(s, a, f, settlement, ToClient);
    case InDeliver(f, pending, next) => DeliverEvolves(s, a, f, pending, next);
    case InCallback(c, step) => CallbackEvolves(s, a, c, step);
    case InDtor(step) => DtorEvolves(s, a, step);
  }

  lemma StepEvolves(s: State, l: Label)
    requires Inv(s) && Enabled(s, l)
    ensures Evolves(s, Apply(s, l))
  {
    if l.Advance? {
      AdvanceEvolves(s, l.act);
    } else {
      assert s.nextReg !in s.regs;
      ClientEvolves(s, l);
    }
  }

  /** New calls and client operations. */
  lemma ClientEvolves(s: State, l: Label)
    requires Enabled(s, l) && !l.Advance? && s.nextReg !in s.regs
    ensures Evolves(s, Apply(s, l))
  {
  }
}
