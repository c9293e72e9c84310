/** No stale continuation stays queued: whoever replaces an await takes its queued continuation back. */
module AsyncTokens {
  import opened Basics
  import opened Futures
  import opened AsyncProtocol
  import opened AsyncInvariant
  import opened AsyncPreservation
  import opened AsyncHistory
  import opened AsyncTheorems
  import opened AsyncOutcome

  /** The call of activity `a` is about to publish the token of context `c`, or to remove its continuation. */
  predicate Handles(pc: Pc, c: Id, r: Registration) {
    match pc
    case InAwait(AwaitToken(t, id)) => t == c && id == r.id
    case InInvalidate(_, InvRemove(f, t, id)) => t == c && f == r.home && id == r.id
    case _ => false
  }

  /** Some call still handles this queued context. */
  ghost predicate Handled(s: State, c: Id)
    requires c in s.regs
  {
    exists a :: a in s.acts && Handles(s.acts[a].pc, c, s.regs[c])
  }

  /** A queued await context is the registered one and its token is known, or a call is handling it. */
  ghost predicate TokenOk(s: State, c: Id) {
    c in s.regs && s.regs[c].isAwait && s.regs[c].place.Queued? ==>
      (s.await.context == Some(c) && s.await.continuationId == s.regs[c].id) || Handled(s, c)
  }

  /** From arming to token publication the context of a call is the registered one. */
  predicate ArmedOk(s: State, a: Id) {
    a in s.acts && s.acts[a].pc.InAwait? && (s.acts[a].pc.await.AwaitRegister? || s.acts[a].pc.await.AwaitToken?) ==>
      s.await.context == Some(s.acts[a].pc.await.ctx)
  }

  ghost predicate TokensOk(s: State) {
    (forall c :: TokenOk(s, c)) && (forall a :: ArmedOk(s, a))
  }

  // ---------- the registered await belongs to who holds the gate ----------

  lemma IdleKeepsAwait(s: State, b: Id)
    requires b in s.acts && Ready(s, b) && !Busy(s.acts[b].pc)
    ensures Advanced(s, b).await == s.await
  {
  }

  lemma SpawnedNotArmed(s: State, b: Id, a: Id)
    requires b in s.acts && Ready(s, b) && a !in s.acts && (s.acts[b].pc.InAwait? || s.acts[b].pc.InInvalidate?)
    ensures a in Advanced(s, b).acts ==> ArmedOk(Advanced(s, b), a)
  {
    match s.acts[b].pc
    case InAwait(step) =>
    case InInvalidate(after, step) =>
  }

  lemma DeliveredNotArmed(s: State, b: Id, a: Id)
    requires b in s.acts && Ready(s, b) && a !in s.acts && !s.acts[b].pc.InAwait? && !s.acts[b].pc.InInvalidate?
    ensures a in Advanced(s, b).acts ==> ArmedOk(Advanced(s, b), a)
  {
  }

  lemma NewNotArmed(s: State, l: Label, a: Id)
    requires Enabled(s, l) && l != Advance(a) && a !in s.acts && a in Apply(s, l).acts
    ensures ArmedOk(Apply(s, l), a)
  {
    if l.Advance? {
      if s.acts[l.act].pc.InAwait? || s.acts[l.act].pc.InInvalidate? {
        SpawnedNotArmed(s, l.act, a);
      } else {
        DeliveredNotArmed(s, l.act, a);
      }
    }
  }

  lemma OwnArmed(s: State, a: Id)
    requires Inv(s) && a in s.acts && Ready(s, a) && ArmedOk(s, a) && a < s.nextAct
    ensures ArmedOk(Advanced(s, a), a)
  {
    match s.acts[a].pc
    case InAwait(step) => OwnAwaitArmed(s, a, step);
    case InInvalidate(after, step) => OwnInvalidateArmed(s, a, after, step);
    case _ => OwnElseArmed(s, a);
  }

  lemma OwnAwaitArmed(s: State, a: Id, step: AwaitStep)
    requires At(s, a, InAwait(step)) && ArmedOk(s, a) && a < s.nextAct
    ensures ArmedOk(AdvanceAwait(s, a, step), a)
  {
  }

  lemma OwnInvalidateArmed(s: State, a: Id, after: AfterInvalidate, step: InvStep)
    requires At(s, a, InInvalidate(after, step)) && a < s.nextAct
    ensures ArmedOk(AdvanceInvalidate(s, a, after, step), a)
  {
  }

  lemma OwnElseArmed(s: State, a: Id)
    requires a in s.acts && Ready(s, a) && !s.acts[a].pc.InAwait? && !s.acts[a].pc.InInvalidate? && a < s.nextAct
    ensures ArmedOk(Advanced(s, a), a)
  {
  }

  lemma ArmedKeeps(s: State, l: Label, a: Id)
    requires Inv(s) && Enabled(s, l) && TokensOk(s)
    ensures ArmedOk(Apply(s, l), a)
  {
    if a in s.acts {
      assert ActOk(s, a) && ArmedOk(s, a);
      if l == Advance(a) {
        OwnArmed(s, a);
      } else {
        OtherNames(s, l, a);
        if l.Advance? && Busy(s.acts[a].pc) {
          assert HoldsGate(s.acts[l.act].pc) ==> !Busy(s.acts[l.act].pc);
          IdleKeepsAwait(s, l.act);
        }
      }
    } else if a in Apply(s, l).acts {
      NewNotArmed(s, l, a);
    }
  }

  // ---------- one queued context ----------

  predicate QueuedAwait(s: State, c: Id) {
    c in s.regs && s.regs[c].isAwait && s.regs[c].place.Queued?
  }

  /** Registrations are numbered on arming and keep their future and continuation id while queued. */
  ghost predicate Requeued(s: State, s': State, c: Id) {
    QueuedAwait(s, c) && QueuedAwait(s', c) ==> s'.regs[c].id == s.regs[c].id && s'.regs[c].home == s.regs[c].home
  }

  lemma CallRequeues(s: State, a: Id, c: Id)
    requires Inv(s) && a in s.acts && Ready(s, a) && (s.acts[a].pc.InAwait? || s.acts[a].pc.InInvalidate?)
    ensures Requeued(s, Advanced(s, a), c)
  {
    assert ActOk(s, a);
    if s.acts[a].pc.InAwait? { AwaitRequeues(s, a, s.acts[a].pc.await, c); }
    else { InvalidateRequeues(s, a, s.acts[a].pc.after, s.acts[a].pc.inv, c); }
  }

  lemma AwaitRequeues(s: State, a: Id, step: AwaitStep, c: Id)
    requires CoreAt(s, a, InAwait(step)) && s.nextReg !in s.regs
    ensures Requeued(s, AdvanceAwait(s, a, step), c)
  {
  }

  lemma InvalidateRequeues(s: State, a: Id, after: AfterInvalidate, step: InvStep, c: Id)
    requires CoreAt(s, a, InInvalidate(after, step))
    ensures Requeued(s, AdvanceInvalidate(s, a, after, step), c)
  {
  }

  lemma OtherRequeues(s: State, a: Id, c: Id)
    requires a in s.acts && Ready(s, a) && !s.acts[a].pc.InAwait? && !s.acts[a].pc.InInvalidate?
    ensures Requeued(s, Advanced(s, a), c)
  {
  }

  lemma StepRequeues(s: State, l: Label, c: Id)
    requires Inv(s) && Enabled(s, l)
    ensures Requeued(s, Apply(s, l), c)
  {
    if l.Advance? {
      if s.acts[l.act].pc.InAwait? || s.acts[l.act].pc.InInvalidate? { CallRequeues(s, l.act, c); }
      else { OtherRequeues(s, l.act, c); }
    } else {
      assert s.nextReg !in s.regs;
    }
  }

  /** The call that handles a queued context publishes its token or removes it. */
  lemma HandledHere(s: State, b: Id, c: Id)
    requires Inv(s) && TokensOk(s) && QueuedAwait(s, c) && b in s.acts && Ready(s, b)
    requires Handles(s.acts[b].pc, c, s.regs[c])
    ensures QueuedAwait(Advanced(s, b), c) ==> TokenOk(Advanced(s, b), c)
  {
    assert ActOk(s, b) && ArmedOk(s, b) && RegOk(s, c);
    match s.acts[b].pc
    case InAwait(AwaitToken(_, id)) =>
    case InInvalidate(after, InvRemove(f, _, id)) =>
      var future := s.futures[f].future;
      assert FutureOk(s.regs, s.term.completion, f, s.futures[f]);
      assert Entry(id, c) in future.continuations;
      var k := IndexOf(future.continuations, id);
      assert k < |future.continuations|;
      RemovedIsSaved(s, b, after, f, c, id);
  }

  /** The token of the registered await stays known, until the await is replaced by a call that removes it. */
  lemma KnownToken(s: State, a: Id, c: Id)
    requires Inv(s) && TokensOk(s) && QueuedAwait(s, c) && a in s.acts && Ready(s, a)
    requires s.await.context == Some(c) && s.await.continuationId == s.regs[c].id
    ensures QueuedAwait(Advanced(s, a), c) ==> TokenOk(Advanced(s, a), c)
  {
    assert ActOk(s, a) && RegOk(s, c) && ArmedOk(s, a);
    match s.acts[a].pc
    case InAwait(step) => KnownInAwait(s, a, step, c);
    case InInvalidate(after, step) => KnownInInvalidate(s, a, after, step, c);
    case InCallback(t, step) =>
      if step.CbRegion? { CurrentIsRegistered(s, a, t); }
      KnownInCallback(s, a, t, step, c);
    case _ => KnownElse(s, a, c);
  }

  lemma KnownInAwait(s: State, a: Id, step: AwaitStep, c: Id)
    requires CoreAt(s, a, InAwait(step)) && QueuedAwait(s, c) && ArmedOk(s, a) && s.nextReg !in s.regs
    requires s.await.context == Some(c) && s.await.continuationId == s.regs[c].id
    ensures QueuedAwait(AdvanceAwait(s, a, step), c) ==> TokenOk(AdvanceAwait(s, a, step), c)
  {
  }

  lemma KnownInInvalidate(s: State, a: Id, after: AfterInvalidate, step: InvStep, c: Id)
    requires CoreAt(s, a, InInvalidate(after, step)) && QueuedAwait(s, c)
    requires s.await.context == Some(c) && s.await.continuationId == s.regs[c].id
    ensures QueuedAwait(AdvanceInvalidate(s, a, after, step), c) ==> TokenOk(AdvanceInvalidate(s, a, after, step), c)
  {
    if step.InvRegion? {
      var s' := InvalidateRegion(s, a, after);
      assert a in s'.acts && Handles(s'.acts[a].pc, c, s'.regs[c]);
    }
  }

  lemma KnownInCallback(s: State, a: Id, t: Id, step: CbStep, c: Id)
    requires CoreAt(s, a, InCallback(t, step)) && QueuedAwait(s, c)
    requires s.await.context == Some(c) && s.await.continuationId == s.regs[c].id
    requires step.CbRegion? ==> !IsCurrent(s, t)
    ensures QueuedAwait(AdvanceCallback(s, a, t, step), c) ==> TokenOk(AdvanceCallback(s, a, t, step), c)
  {
  }

  lemma KnownElse(s: State, a: Id, c: Id)
    requires a in s.acts && Ready(s, a) && QueuedAwait(s, c)
    requires !s.acts[a].pc.InAwait? && !s.acts[a].pc.InInvalidate? && !s.acts[a].pc.InCallback?
    requires s.await.context == Some(c) && s.await.continuationId == s.regs[c].id
    ensures QueuedAwait(Advanced(s, a), c) ==> TokenOk(Advanced(s, a), c)
  {
  }

  /** A context is queued only by the call that armed it, which then holds its token. */
  lemma FreshlyQueued(s: State, l: Label, c: Id)
    requires Inv(s) && Enabled(s, l) && !QueuedAwait(s, c) && QueuedAwait(Apply(s, l), c)
    ensures TokenOk(Apply(s, l), c)
  {
    StepEvolves(s, l);
    if l.Advance? {
      assert ActOk(s, l.act) && s.nextReg !in s.regs;
      match s.acts[l.act].pc
      case InAwait(step) => FreshInAwait(s, l.act, step, c);
      case InInvalidate(_, _) => FreshElse(s, l.act, c);
      case _ => FreshElse(s, l.act, c);
    }
  }

  lemma FreshInAwait(s: State, a: Id, step: AwaitStep, c: Id)
    requires CoreAt(s, a, InAwait(step)) && s.nextReg !in s.regs
    requires !QueuedAwait(s, c) && QueuedAwait(AdvanceAwait(s, a, step), c)
    ensures TokenOk(AdvanceAwait(s, a, step), c)
  {
    var s' := AdvanceAwait(s, a, step);
    if step.AwaitRegister? { assert a in s'.acts && Handles(s'.acts[a].pc, c, s'.regs[c]); }
  }

  lemma FreshElse(s: State, a: Id, c: Id)
    requires a in s.acts && Ready(s, a) && !s.acts[a].pc.InAwait? && !QueuedAwait(s, c)
    ensures !QueuedAwait(Advanced(s, a), c)
  {
  }

  lemma TokenKeeps(s: State, l: Label, c: Id)
    requires Inv(s) && Enabled(s, l) && TokensOk(s)
    ensures TokenOk(Apply(s, l), c)
  {
    var s' := Apply(s, l);
    if QueuedAwait(s', c) && !QueuedAwait(s, c) {
      FreshlyQueued(s, l, c);
    } else if QueuedAwait(s', c) {
      assert TokenOk(s, c);
      StepRequeues(s, l, c);
      if Handled(s, c) {
        var b :| b in s.acts && Handles(s.acts[b].pc, c, s.regs[c]);
        if l == Advance(b) {
          HandledHere(s, b, c);
        } else {
          assert ActOk(s, b);
          OtherNames(s, l, b);
          assert b in s'.acts && Handles(s'.acts[b].pc, c, s'.regs[c]);
        }
      } else if l.Advance? {
        KnownToken(s, l.act, c);
      }
    }
  }

  lemma {:induction false} TokensKept(r: Run, completion: Id, i: nat)
    requires IsRun(r, completion) && i < |r.states|
    ensures TokensOk(r.states[i])
  {
    if i > 0 {
      var before := i - 1;
      TokensKept(r, completion, before);
      Reachable(r, completion, before);
      var s, l := r.states[before], r.labels[before];
      forall c ensures TokenOk(Apply(s, l), c) { TokenKeeps(s, l, c); }
      forall a ensures ArmedOk(Apply(s, l), a) { ArmedKeeps(s, l, a); }
    }
  }

  /**
   In every reachable state a queued await context belongs to the registered await, or to a call
   that is about to publish its token or to remove it. So when no call is under way, every context
   that was replaced has been detached from its future, settled or not.
   */
  lemma OnlyRegisteredQueued(r: Run, completion: Id, i: nat, c: Id)
    requires IsRun(r, completion) && i < |r.states| && IsAwait(r.states[i].regs, c) && r.states[i].regs[c].place.Queued?
    ensures var s := r.states[i];
      || (s.await.registered && s.await.context == Some(c) && s.await.continuationId == s.regs[c].id)
      || exists a :: a in s.acts && Handles(s.acts[a].pc, c, s.regs[c])
  {
    TokensKept(r, completion, i);
    Reachable(r, completion, i);
    assert TokenOk(r.states[i], c);
  }
}
