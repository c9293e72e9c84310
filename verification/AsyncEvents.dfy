/** Events of a registration: the program steps at which its fate is sealed, and that each happens once. */
module AsyncEvents {
  import opened Basics
  import opened Futures
  import opened AsyncProtocol
  import opened AsyncInvariant
  import opened AsyncPreservation

  /**
   Invoking: its callback is invoked. Deciding: an await context is accepted, found stale, or
   detached from the queue. Releasing: the future reference its await took is released.
   Consuming: its frame reference is dropped and the context deleted.
   */
  datatype Event = Invoking | Deciding | Releasing | Consuming

  /** The registration for which activity `a` performs this event in its next step. */
  function ActEvent(k: Event, s: State, a: Id): Option<Id>
    requires a in s.acts && Ready(s, a)
  {
    match (k, s.acts[a].pc)
    case (Invoking, InDeliver(_, pending, _)) => if pending == [] then None else Some(pending[0].token)
    case (Invoking, InAwait(AwaitRegister(c))) =>
      if s.futures[s.regs[c].home].future.settlement.Settled? then Some(c) else None
    case (Deciding, InCallback(c, CbRegion(_, _))) => Some(c)
    case (Deciding, InInvalidate(_, InvRemove(f, _, id))) => RemoveRegion(s.futures[f].future, id).1
    case (Releasing, InInvalidate(_, InvRelease(_, c))) => Some(c)
    case (Releasing, InCallback(c, CbReleaseFuture)) => Some(c)
    case (Releasing, InDtor(DtorAwaited)) => if s.await.awaited.Some? then s.await.context else None
    case (Consuming, InInvalidate(_, InvDrop(_, _, t))) => Some(t)
    case (Consuming, InCallback(c, CbExit)) => Some(c)
    case _ => None
  }

  function EventOf(k: Event, s: State, l: Label): Option<Id>
    requires Enabled(s, l)
  {
    match l
    case Advance(a) => ActEvent(k, s, a)
    case Then(f) => if k.Invoking? && s.futures[f].future.settlement.Settled? then Some(s.nextReg) else None
    case _ => None
  }

  /** The event has already happened to registration `t`. */
  predicate Happened(k: Event, s: State, t: Id) {
    && t in s.regs
    && match k
       case Invoking => s.regs[t].call.Settled?
       case Deciding =>
         && s.regs[t].isAwait
         && (s.regs[t].place.Detaching? || Consumed(s.regs[t].place) ||
             (s.regs[t].place.Calling? && s.regs[t].place.act in s.acts && !BeforeTest(s.acts[s.regs[t].place.act].pc)))
       case Releasing => s.regs[t].isAwait && s.regs[t].retain.Released?
       case Consuming => s.regs[t].isAwait && Consumed(s.regs[t].place)
  }

  /** The event happens in this step exactly when it had not happened before and has afterwards. */
  ghost predicate Exact(k: Event, s: State, event: Option<Id>, s': State, t: Id) {
    && (Happened(k, s', t) <==> Happened(k, s, t) || event == Some(t))
    && (event == Some(t) ==> !Happened(k, s, t))
  }

  /** `s'` differs from `s` in one registration at most, and in activity `a`. */
  lemma Untouched(k: Event, s: State, s': State, a: Id, t: Id)
    requires t in s.regs ==> RegOk(s, t)
    requires (t in s.regs <==> t in s'.regs) && (t in s.regs ==> s'.regs[t] == s.regs[t])
    requires forall b :: b in s.acts && b != a ==> b in s'.acts && s'.acts[b] == s.acts[b]
    requires a in s.acts && s.acts[a].pc.InCallback? && s.acts[a].pc.ctx == t ==>
      a in s'.acts && BeforeTest(s'.acts[a].pc) == BeforeTest(s.acts[a].pc)
    ensures Exact(k, s, None, s', t)
  {
  }

  lemma AwaitExact(k: Event, s: State, a: Id, step: AwaitStep, t: Id)
    requires CoreAt(s, a, InAwait(step)) && (t in s.regs ==> RegOk(s, t)) && s.nextReg !in s.regs
    requires s.nextAct !in s.acts
    ensures Exact(k, s, ActEvent(k, s, a), AdvanceAwait(s, a, step), t)
  {
    match step
    case AwaitRegister(c) => RegisterExact(k, s, a, c, t);
    case AwaitArm(f, resume) => ArmExact(k, s, a, f, resume, t);
    case _ => Untouched(k, s, AdvanceAwait(s, a, step), a, t);
  }

  lemma RegisterExact(k: Event, s: State, a: Id, c: Id, t: Id)
    requires CoreAt(s, a, InAwait(AwaitRegister(c))) && (t in s.regs ==> RegOk(s, t)) && s.nextReg !in s.regs
    requires s.nextAct !in s.acts
    ensures Exact(k, s, ActEvent(k, s, a), RegisterAwait(s, a, c), t)
  {
  }

  lemma ArmExact(k: Event, s: State, a: Id, f: Id, resume: int, t: Id)
    requires CoreAt(s, a, InAwait(AwaitArm(f, resume))) && (t in s.regs ==> RegOk(s, t)) && s.nextReg !in s.regs
    requires s.nextAct !in s.acts
    ensures Exact(k, s, ActEvent(k, s, a), ArmAwait(s, a, f, resume), t)
  {
  }

  lemma InvalidateExact(k: Event, s: State, a: Id, after: AfterInvalidate, step: InvStep, t: Id)
    requires CoreAt(s, a, InInvalidate(after, step)) && (t in s.regs ==> RegOk(s, t)) && s.nextAct !in s.acts
    requires step.InvRemove? ==>
      var removed := RemoveRegion(s.futures[step.fut].future, step.id).1;
      removed.Some? ==> removed == Some(step.saved) && s.regs[step.saved].place == Queued
    ensures Exact(k, s, ActEvent(k, s, a), AdvanceInvalidate(s, a, after, step), t)
  {
    match step
    case InvRegion => InvRegionExact(k, s, a, after, t);
    case InvRemove(f, c, id) => InvRemoveExact(k, s, a, after, step, t);
    case InvDrop(_, _, _) => InvLastExact(k, s, a, after, step, t);
    case InvRelease(_, _) => InvLastExact(k, s, a, after, step, t);
  }

  lemma InvLastExact(k: Event, s: State, a: Id, after: AfterInvalidate, step: InvStep, t: Id)
    requires CoreAt(s, a, InInvalidate(after, step)) && (t in s.regs ==> RegOk(s, t)) && s.nextAct !in s.acts
    requires step.InvDrop? || step.InvRelease?
    ensures Exact(k, s, ActEvent(k, s, a), AdvanceInvalidate(s, a, after, step), t)
  {
  }

  lemma InvRegionExact(k: Event, s: State, a: Id, after: AfterInvalidate, t: Id)
    requires CoreAt(s, a, InInvalidate(after, InvRegion)) && (t in s.regs ==> RegOk(s, t)) && s.nextAct !in s.acts
    ensures Exact(k, s, ActEvent(k, s, a), InvalidateRegion(s, a, after), t)
  {
  }

  lemma InvRemoveExact(k: Event, s: State, a: Id, after: AfterInvalidate, step: InvStep, t: Id)
    requires CoreAt(s, a, InInvalidate(after, step)) && (t in s.regs ==> RegOk(s, t)) && step.InvRemove?
    requires var removed := RemoveRegion(s.futures[step.fut].future, step.id).1;
      removed.Some? ==> removed == Some(step.saved) && s.regs[step.saved].place == Queued
    ensures Exact(k, s, ActEvent(k, s, a), AdvanceInvalidate(s, a, after, step), t)
  {
  }

  lemma SettleExact(k: Event, s: State, a: Id, f: Id, settlement: Settlement, next: AfterDeliver, t: Id)
    requires Settles(s, a, f, settlement, next) && (t in s.regs ==> RegOk(s, t))
    requires FutureOk(s.regs, s.term.completion, f, s.futures[f])
    ensures Exact(k, s, None, SettleBy(s, a, f, settlement, next), t)
  {
  }

  lemma DeliverExact(k: Event, s: State, a: Id, f: Id, pending: seq<Entry>, next: AfterDeliver, t: Id)
    requires CoreAt(s, a, InDeliver(f, pending, next)) && (t in s.regs ==> RegOk(s, t)) && s.nextAct !in s.acts
    ensures Exact(k, s, ActEvent(k, s, a), DeliverNext(s, a, f, pending, next), t)
  {
  }

  lemma CallbackExact(k: Event, s: State, a: Id, c: Id, step: CbStep, t: Id)
    requires CoreAt(s, a, InCallback(c, step)) && RegOk(s, c) && (t in s.regs ==> RegOk(s, t)) && s.nextAct !in s.acts
    ensures Exact(k, s, ActEvent(k, s, a), AdvanceCallback(s, a, c, step), t)
  {
    if t != c || (!step.CbRegion? && !step.CbReleaseFuture? && !step.CbExit?) {
      Untouched(k, s, AdvanceCallback(s, a, c, step), a, t);
    } else if step.CbRegion? {
      DecisionExact(k, s, a, c, step.value, step.status);
    } else {
      ConsumedExact(k, s, a, c, step);
    }
  }

  lemma DecisionExact(k: Event, s: State, a: Id, c: Id, value: int, status: int)
    requires CoreAt(s, a, InCallback(c, CbRegion(value, status))) && c in s.regs && RegOk(s, c)
    ensures Exact(k, s, ActEvent(k, s, a), AcceptCallback(s, a, c, value, status), c)
  {
  }

  lemma ConsumedExact(k: Event, s: State, a: Id, c: Id, step: CbStep)
    requires CoreAt(s, a, InCallback(c, step)) && c in s.regs && RegOk(s, c) && s.nextAct !in s.acts
    requires step.CbReleaseFuture? || step.CbExit?
    ensures Exact(k, s, ActEvent(k, s, a), AdvanceCallback(s, a, c, step), c)
  {
  }

  lemma TerminalExact(k: Event, s: State, a: Id, kind: Terminal, step: TermStep, t: Id)
    requires CoreAt(s, a, InTerminal(kind, step)) && (t in s.regs ==> RegOk(s, t)) && s.nextAct !in s.acts
    requires FuturesOk(s)
    ensures Exact(k, s, ActEvent(k, s, a), AdvanceTerminal(s, a, kind, step), t)
  {
    if step.TermSettle? {
      assert FutureOk(s.regs, s.term.completion, s.term.completion, s.futures[s.term.completion]);
      SettleExact(k, s, a, s.term.completion, SettlementOf(kind), ToPublish(kind), t);
    } else {
      Untouched(k, s, AdvanceTerminal(s, a, kind, step), a, t);
    }
  }

  lemma DtorExact(k: Event, s: State, a: Id, step: DtorStep, t: Id)
    requires CoreAt(s, a, InDtor(step)) && (t in s.regs ==> RegOk(s, t)) && FuturesOk(s) && !s.await.registered
    ensures Exact(k, s, ActEvent(k, s, a), AdvanceDtor(s, a, step), t)
  {
    if step.DtorSettle? {
      assert FutureOk(s.regs, s.term.completion, s.term.completion, s.futures[s.term.completion]);
      SettleExact(k, s, a, s.term.completion, Settled(0, true), ToRelease, t);
    } else {
      Untouched(k, s, AdvanceDtor(s, a, step), a, t);
    }
  }

  lemma AdvanceExact(k: Event, s: State, a: Id, t: Id)
    requires Inv(s) && a in s.acts && Ready(s, a)
    ensures Exact(k, s, ActEvent(k, s, a), Advanced(s, a), t)
  {
    assert ActOk(s, a) && (t in s.regs ==> RegOk(s, t));
    assert s.nextReg !in s.regs && s.nextAct !in s.acts;
    match s.acts[a].pc
    case InAwait(step) => AwaitExact(k, s, a, step, t);
    case InInvalidate(after, step) =>
      if step.InvRemove? && RemoveRegion(s.futures[step.fut].future, step.id).1.Some? {
        RemovedIsSaved(s, a, after, step.fut, step.saved, step.id);
      }
      InvalidateExact(k, s, a, after, step, t);
    case InTerminal(kind, step) => TerminalExact(k, s, a, kind, step, t);
    case InFinish(f, settlement) =>
      assert FutureOk(s.regs, s.term.completion, f, s.futures[f]);
      SettleExact(k, s, a, f, settlement, ToClient, t);
    case InDeliver(f, pending, next) => DeliverExact(k, s, a, f, pending, next, t);
    case InCallback(c, step) => CallbackExact(k, s, a, c, step, t);
    case InDtor(step) =>
      DtorAlone(s, a);
      DtorExact(k, s, a, step, t);
  }

  lemma ClientExact(k: Event, s: State, l: Label, t: Id)
    requires Enabled(s, l) && !l.Advance? && (t in s.regs ==> RegOk(s, t)) && s.nextReg !in s.regs
    requires s.nextAct !in s.acts
    ensures Exact(k, s, EventOf(k, s, l), Apply(s, l), t)
  {
    if !l.Then? { Untouched(k, s, Apply(s, l), s.nextAct, t); }
  }

  /** In every step from a reachable state, an event happens exactly when its mark appears. */
  lemma StepExact(k: Event, s: State, l: Label, t: Id)
    requires Inv(s) && Enabled(s, l)
    ensures Exact(k, s, EventOf(k, s, l), Apply(s, l), t)
  {
    if l.Advance? {
      AdvanceExact(k, s, l.act, t);
    } else {
      assert s.nextReg !in s.regs && s.nextAct !in s.acts;
      ClientExact(k, s, l, t);
    }
  }
}
