/** What an await tells the frame: the published outcome, traced back to the call that asked for it. */
module AsyncOutcome {
  import opened Basics
  import opened Futures
  import opened AsyncProtocol
  import opened AsyncInvariant
  import opened AsyncPreservation
  import opened AsyncHistory
  import opened AsyncTheorems

  // ---------- one await call ----------

  /** The outcome that an await of a settled future hands over at once: no value if it was cancelled. */
  predicate ReadyOutcome(s: State, f: Id, value: int, status: int) {
    && f in s.futures && s.futures[f].future.settlement.Settled?
    && var settled := s.futures[f].future.settlement;
       if settled.cancelled then value == 0 && status == -1 else value == settled.value && status == 1
  }

  /** The await context `c` waits for this future and will resume in this state. */
  predicate ContextFor(s: State, c: Id, f: Id, resume: int) {
    c in s.regs && s.regs[c].isAwait && s.regs[c].home == f && s.regs[c].resume == resume
  }

  /** Activity `a` is an await of `f` with this resume state, and has forgotten neither. */
  predicate Awaits(s: State, pc: Pc, f: Id, resume: int) {
    match pc
    case InAwait(AwaitEnter(g, state)) => g == f && state == resume
    case InAwait(AwaitProbe(g, state)) => g == f && state == resume
    case InAwait(AwaitCheck(g, state)) => g == f && state == resume
    case InAwait(AwaitArm(g, state)) => g == f && state == resume
    case InAwait(AwaitPublish(state, value, status)) => state == resume && ReadyOutcome(s, f, value, status)
    case InAwait(AwaitRegister(c)) => ContextFor(s, c, f, resume)
    case InAwait(AwaitToken(c, _)) => ContextFor(s, c, f, resume)
    case InInvalidate(ToReady(state, value, status), _) => state == resume && ReadyOutcome(s, f, value, status)
    case InInvalidate(ToArm(g, state), _) => g == f && state == resume
    case _ => false
  }

  ghost predicate Carries(s: State, a: Id, f: Id, resume: int) {
    a < s.nextAct && (a in s.acts ==> Awaits(s, s.acts[a].pc, f, resume))
  }

  /** What the program counter says stays true while futures and registrations evolve. */
  lemma AwaitsEvolves(s: State, s': State, pc: Pc, f: Id, resume: int)
    requires Awaits(s, pc, f, resume) && RegsEvolve(s, s') && FuturesEvolve(s, s')
    ensures Awaits(s', pc, f, resume)
  {
  }

  /** No step renames an activity, and a name that is gone is not used again. */
  ghost predicate NameKept(s: State, s': State, a: Id) {
    && a < s'.nextAct
    && (a in s.acts ==> a in s'.acts && s'.acts[a] == s.acts[a])
    && (a !in s.acts ==> a !in s'.acts)
  }

  lemma CallNames(s: State, b: Id, a: Id)
    requires b in s.acts && Ready(s, b) && a != b && a < s.nextAct
    requires s.acts[b].pc.InAwait? || s.acts[b].pc.InInvalidate?
    ensures NameKept(s, Advanced(s, b), a)
  {
  }

  lemma TerminalNames(s: State, b: Id, a: Id)
    requires b in s.acts && Ready(s, b) && a != b && a < s.nextAct
    requires s.acts[b].pc.InTerminal? || s.acts[b].pc.InFinish? || s.acts[b].pc.InDtor?
    ensures NameKept(s, Advanced(s, b), a)
  {
  }

  lemma CallbackNames(s: State, b: Id, a: Id)
    requires b in s.acts && Ready(s, b) && a != b && a < s.nextAct
    requires s.acts[b].pc.InDeliver? || s.acts[b].pc.InCallback?
    ensures NameKept(s, Advanced(s, b), a)
  {
  }

  lemma OtherNames(s: State, l: Label, a: Id)
    requires Enabled(s, l) && l != Advance(a) && a < s.nextAct
    ensures NameKept(s, Apply(s, l), a)
  {
    if l.Advance? {
      match s.acts[l.act].pc
      case InAwait(_) => CallNames(s, l.act, a);
      case InInvalidate(_, _) => CallNames(s, l.act, a);
      case InTerminal(_, _) => TerminalNames(s, l.act, a);
      case InFinish(_, _) => TerminalNames(s, l.act, a);
      case InDtor(_) => TerminalNames(s, l.act, a);
      case InDeliver(_, _, _) => CallbackNames(s, l.act, a);
      case InCallback(_, _) => CallbackNames(s, l.act, a);
    }
  }

  /** The call's own step. */
  lemma OwnAwaitStep(s: State, a: Id, step: AwaitStep, f: Id, resume: int)
    requires At(s, a, InAwait(step)) && Carries(s, a, f, resume)
    ensures Carries(AdvanceAwait(s, a, step), a, f, resume)
  {
  }

  lemma OwnInvalidateStep(s: State, a: Id, after: AfterInvalidate, step: InvStep, f: Id, resume: int)
    requires At(s, a, InInvalidate(after, step)) && Carries(s, a, f, resume)
    ensures Carries(AdvanceInvalidate(s, a, after, step), a, f, resume)
  {
    AwaitsEvolves(s, AdvanceInvalidate(s, a, after, step), s.acts[a].pc, f, resume) by {
      AdvanceEvolves(s, a);
    }
  }

  lemma CarriesOn(s: State, l: Label, a: Id, f: Id, resume: int)
    requires Inv(s) && Enabled(s, l) && Carries(s, a, f, resume)
    ensures Carries(Apply(s, l), a, f, resume)
  {
    if l == Advance(a) {
      match s.acts[a].pc
      case InAwait(step) => OwnAwaitStep(s, a, step, f, resume);
      case InInvalidate(after, step) => OwnInvalidateStep(s, a, after, step, f, resume);
    } else {
      OtherNames(s, l, a);
      StepEvolves(s, l);
      if a in s.acts { AwaitsEvolves(s, Apply(s, l), s.acts[a].pc, f, resume); }
    }
  }

  /** From its first step to its last, an await call works for the future and the resume state it was given. */
  lemma {:induction false} AwaitCall(r: Run, completion: Id, i: nat, j: nat)
    requires IsRun(r, completion) && i < j < |r.states| && r.labels[i].StartAwait?
    ensures Carries(r.states[j], r.states[i].nextAct, r.labels[i].fut, r.labels[i].resume)
  {
    if j == i + 1 {
    } else {
      AwaitCall(r, completion, i, j - 1);
      Reachable(r, completion, j - 1);
      CarriesOn(r.states[j - 1], r.labels[j - 1], r.states[i].nextAct, r.labels[i].fut, r.labels[i].resume);
    }
  }

  // ---------- what is published ----------

  /** The callback that activity `a` is about to decide on is that of the registered await. */
  predicate ResumesAwait(s: State, a: Id) {
    && a in s.acts && s.acts[a].pc.InCallback? && s.acts[a].pc.cb.CbRegion?
    && s.await.registered && s.await.context == Some(s.acts[a].pc.ctx)
    && s.acts[a].pc.ctx in s.regs && s.regs[s.acts[a].pc.ctx].home in s.futures
  }

  /** The outcome as the awaiting code reads it back. */
  predicate Shows(p: Published, resume: int, result: int, status: int, cancelled: bool) {
    p.state == resume && p.result == result && p.status == status && p.cancelled == cancelled
  }

  /**
   An accepted wakeup publishes the settlement of the future that was awaited: its value, its
   status, the resume state, and the cancellation flag if it was cancelled.
   */
  lemma AcceptedOutcome(r: Run, completion: Id, i: nat, a: Id)
    requires IsRun(r, completion) && i < |r.labels| && r.labels[i] == Advance(a) && ResumesAwait(r.states[i], a)
    ensures var s, s' := r.states[i], r.states[i + 1];
      var c := s.acts[a].pc.ctx;
      var settled := s.futures[s.regs[c].home].future.settlement;
      && settled.Settled? && !s'.await.registered
      && Shows(s'.published, s.regs[c].resume, settled.value, if settled.cancelled then -1 else 1,
               s.published.cancelled || settled.cancelled)
  {
    var s := r.states[i];
    Reachable(r, completion, i);
    OnlyLatestResumes(r, completion, i, a, s.acts[a].pc.ctx);
    assert ActOk(s, a) && RegOk(s, s.acts[a].pc.ctx);
  }

  /** A callback that is not the registered await's publishes nothing. */
  lemma StaleOutcome(r: Run, completion: Id, i: nat, a: Id)
    requires IsRun(r, completion) && i < |r.labels| && r.labels[i] == Advance(a) && a in r.states[i].acts
    requires r.states[i].acts[a].pc.InCallback? && r.states[i].acts[a].pc.cb.CbRegion? && !ResumesAwait(r.states[i], a)
    ensures r.states[i + 1].published == r.states[i].published && r.states[i + 1].await == r.states[i].await
  {
    var s := r.states[i];
    Reachable(r, completion, i);
    assert ActOk(s, a) && RegOk(s, s.acts[a].pc.ctx);
    OnlyLatestResumes(r, completion, i, a, s.acts[a].pc.ctx);
  }

  /** An await that finds its future settled publishes that settlement and the resume state it was called with. */
  lemma ReadyAwait(r: Run, completion: Id, i: nat, j: nat)
    requires IsRun(r, completion) && i < j < |r.labels| && r.labels[i].StartAwait?
    requires r.labels[j] == Advance(r.states[i].nextAct) && r.states[i].nextAct in r.states[j].acts
    requires r.states[j].acts[r.states[i].nextAct].pc.InAwait?
      && r.states[j].acts[r.states[i].nextAct].pc.await.AwaitPublish?
    ensures var s, s', f := r.states[j], r.states[j + 1], r.labels[i].fut;
      && f in s.futures && s.futures[f].future.settlement.Settled?
      && var settled := s.futures[f].future.settlement;
         Shows(s'.published, r.labels[i].resume, if settled.cancelled then 0 else settled.value,
               if settled.cancelled then -1 else 1, s.published.cancelled || settled.cancelled)
  {
    AwaitCall(r, completion, i, j);
  }

  /** The step that arms an await context clears the status, so that no earlier outcome is mistaken for its own. */
  predicate Arms(s: State, s': State, f: Id, resume: int) {
    && s'.nextReg == s.nextReg + 1 && ContextFor(s', s.nextReg, f, resume)
    && s'.await.registered && s'.await.context == Some(s.nextReg) && s'.await.awaited == Some(f)
    && s'.await.resume == resume && s'.published == s.published.(status := 0)
  }

  /** The frame waits for this future and will resume in this state. */
  predicate Waiting(s: State, f: Id, resume: int) {
    s.await.registered && s.await.awaited == Some(f) && s.await.resume == resume
  }

  /**
   While the lifecycle is Active an await call ends in one of four ways: the frame already waits
   for the same future and state and nothing changes, the future was settled and its outcome is
   published, or the context this call armed is queued with its token or has been called.
   */
  predicate Ends(s: State, s': State, pc: Pc, f: Id, resume: int) {
    || (Waiting(s, f, resume) && s' == s.(acts := s'.acts))
    || (s'.published.state == resume && ReadyOutcome(s', f, s'.published.result, s'.published.status)
          && s' == s.(acts := s'.acts, published := s'.published))
    || (pc.InAwait? && pc.await.AwaitRegister? && ContextFor(s', pc.await.ctx, f, resume)
          && f in s'.futures && s'.futures[f].future.settlement.Settled?
          && s'.regs[pc.await.ctx].call == s'.futures[f].future.settlement)
    || (pc.InAwait? && pc.await.AwaitToken? && ContextFor(s', pc.await.ctx, f, resume)
          && (s'.await.context == Some(pc.await.ctx) ==> s'.await.continuationId == s'.regs[pc.await.ctx].id > 0))
  }

  lemma AwaitEnds(r: Run, completion: Id, i: nat, j: nat)
    requires IsRun(r, completion) && i < j < |r.labels| && r.labels[i].StartAwait?
    requires r.states[i].nextAct in r.states[j].acts && r.states[i].nextAct !in r.states[j + 1].acts
    requires r.states[j].term.lifecycle == Active
    ensures Ends(r.states[j], r.states[j + 1], r.states[j].acts[r.states[i].nextAct].pc, r.labels[i].fut,
              r.labels[i].resume)
  {
    var a := r.states[i].nextAct;
    AwaitCall(r, completion, i, j);
    AwaitCall(r, completion, i, j + 1);
    Reachable(r, completion, j);
    if r.labels[j] != Advance(a) { OtherNames(r.states[j], r.labels[j], a); }
    match r.states[j].acts[a].pc
    case InAwait(step) => EndsHere(r.states[j], a, step, r.labels[i].fut, r.labels[i].resume);
    case InInvalidate(after, step) => InvalidateGoesOn(r.states[j], a, after, step);
  }

  lemma EndsHere(s: State, a: Id, step: AwaitStep, f: Id, resume: int)
    requires At(s, a, InAwait(step)) && Carries(s, a, f, resume) && s.term.lifecycle == Active
    requires a !in AdvanceAwait(s, a, step).acts
    ensures Ends(s, AdvanceAwait(s, a, step), InAwait(step), f, resume)
  {
    assert ActOk(s, a);
    if step.AwaitRegister? || step.AwaitToken? { assert RegOk(s, step.ctx); }
  }

  lemma InvalidateGoesOn(s: State, a: Id, after: AfterInvalidate, step: InvStep)
    requires At(s, a, InInvalidate(after, step))
    ensures a in AdvanceInvalidate(s, a, after, step).acts
  {
  }

  /** Otherwise it arms a context for its own future and resume state, unless the frame is terminating. */
  lemma AwaitArms(r: Run, completion: Id, i: nat, j: nat)
    requires IsRun(r, completion) && i < j < |r.labels| && r.labels[i].StartAwait?
    requires r.labels[j] == Advance(r.states[i].nextAct) && r.states[i].nextAct in r.states[j].acts
    requires r.states[j].acts[r.states[i].nextAct].pc.InAwait?
    requires r.states[j].acts[r.states[i].nextAct].pc.await.AwaitArm?
    requires r.states[j].term.lifecycle == Active
    ensures Arms(r.states[j], r.states[j + 1], r.labels[i].fut, r.labels[i].resume)
  {
    AwaitCall(r, completion, i, j);
    Reachable(r, completion, j);
    assert r.states[j].nextReg !in r.states[j].regs;
  }

  /** Waiting for what the frame already waits for changes nothing. */
  lemma RepeatedAwait(s: State, a: Id, f: Id, resume: int)
    requires At(s, a, InAwait(AwaitCheck(f, resume))) && Waiting(s, f, resume)
    ensures Apply(s, Advance(a)) == s.(acts := s.acts - {a})
  {
  }

  // ---------- nothing else is published ----------

  /** The step that stores the cancellation request in the frame. */
  predicate StoresCancel(s: State, l: Label) {
    l.Advance? && l.act in s.acts && s.acts[l.act].pc.InTerminal? && s.acts[l.act].pc.term.TermStore?
      && s.acts[l.act].pc.kind.Cancel?
  }

  /** The step in which the frame learns that an awaited future was cancelled. */
  predicate SeesCancel(s: State, l: Label) {
    l.Advance? && l.act in s.acts
    && if s.acts[l.act].pc.InCallback? then
         ResumesAwait(s, l.act)
         && var settled := s.futures[s.regs[s.acts[l.act].pc.ctx].home].future.settlement;
            settled.Settled? && settled.cancelled
       else s.acts[l.act].pc.InAwait? && s.acts[l.act].pc.await.AwaitPublish? && s.acts[l.act].pc.await.status < 0
  }

  /** The steps that publish: an accepted wakeup, a ready or newly armed await, a stored cancellation. */
  predicate Publishes(s: State, l: Label) {
    l.Advance? && l.act in s.acts
    && match s.acts[l.act].pc
       case InCallback(_, step) => ResumesAwait(s, l.act)
       case InAwait(step) => step.AwaitPublish? || step.AwaitArm?
       case _ => StoresCancel(s, l)
  }

  lemma CallbackPublishes(s: State, a: Id, c: Id, step: CbStep)
    requires At(s, a, InCallback(c, step))
    ensures ResumesAwait(s, a) || Advanced(s, a).published == s.published
    ensures Advanced(s, a).published.cancelled <==> s.published.cancelled || SeesCancel(s, Advance(a))
  {
    assert ActOk(s, a) && (c in s.regs ==> RegOk(s, c));
    if step.CbRegion? { CurrentIsRegistered(s, a, c); }
  }

  lemma CurrentIsRegistered(s: State, a: Id, c: Id)
    requires Inv(s) && a in s.acts && s.acts[a].pc.InCallback? && s.acts[a].pc.ctx == c && s.acts[a].pc.cb.CbRegion?
    ensures c in s.regs && (IsCurrent(s, c) <==> ResumesAwait(s, a))
  {
    assert ActOk(s, a) && RegOk(s, c);
    WinnerNotAhead(s, a);
  }

  lemma CallPublishes(s: State, a: Id)
    requires Inv(s) && a in s.acts && Ready(s, a) && (s.acts[a].pc.InAwait? || s.acts[a].pc.InInvalidate?)
    ensures Publishes(s, Advance(a)) || Advanced(s, a).published == s.published
    ensures Advanced(s, a).published.cancelled <==> s.published.cancelled || SeesCancel(s, Advance(a))
  {
  }

  lemma OtherPublishes(s: State, a: Id)
    requires a in s.acts && Ready(s, a)
    requires !s.acts[a].pc.InAwait? && !s.acts[a].pc.InInvalidate? && !s.acts[a].pc.InCallback?
    ensures Publishes(s, Advance(a)) || Advanced(s, a).published == s.published
    ensures Advanced(s, a).published.cancelled <==> s.published.cancelled || StoresCancel(s, Advance(a))
  {
  }

  /**
   One step changes what is published only as those steps do, and sets the flag exactly when it
   learns of a cancellation.
   */
  lemma StepPublishes(s: State, l: Label)
    requires Inv(s) && Enabled(s, l)
    ensures Publishes(s, l) || Apply(s, l).published == s.published
    ensures Apply(s, l).published.cancelled <==> s.published.cancelled || SeesCancel(s, l) || StoresCancel(s, l)
  {
    if l.Advance? {
      match s.acts[l.act].pc
      case InCallback(c, step) => CallbackPublishes(s, l.act, c, step);
      case InAwait(_) => CallPublishes(s, l.act);
      case InInvalidate(_, _) => CallPublishes(s, l.act);
      case _ => OtherPublishes(s, l.act);
    }
  }

  /** In step `k` of the run the frame learns of a cancellation or stores one. */
  predicate LearnsAt(r: Run, k: int) {
    0 <= k < |r.labels| && k < |r.states|
      && (SeesCancel(r.states[k], r.labels[k]) || StoresCancel(r.states[k], r.labels[k]))
  }

  lemma FlagStep(r: Run, completion: Id, k: nat)
    requires IsRun(r, completion) && k < |r.labels|
    ensures r.states[k + 1].published.cancelled <==> r.states[k].published.cancelled || LearnsAt(r, k)
  {
    Reachable(r, completion, k);
    StepPublishes(r.states[k], r.labels[k]);
  }

  /** The cancellation flag is set exactly when an observed status was negative or a cancellation was stored. */
  lemma {:induction false} CancelFlag(r: Run, completion: Id, j: nat)
    requires IsRun(r, completion) && j < |r.states|
    ensures r.states[j].published.cancelled <==> exists k :: 0 <= k < j && LearnsAt(r, k)
  {
    if j > 0 {
      var before := j - 1;
      CancelFlag(r, completion, before);
      FlagStep(r, completion, before);
      if r.states[j].published.cancelled && !r.states[before].published.cancelled { assert LearnsAt(r, before); }
    }
  }
}
