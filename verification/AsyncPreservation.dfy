/** Every step of the async protocol keeps the invariant. */
module AsyncPreservation {
  import opened Basics
  import opened Futures
  import opened AsyncProtocol
  import opened AsyncInvariant

  // ---------- frames: what a step does not touch ----------

  /** Registrations other than `t` still find activity `a` where their place and retain say. */
  ghost predicate RoleKept(before: Option<Pc>, after: Option<Pc>, t: Id) {
    before.Some? ==> PcRoleKept(before.value, after, t)
  }

  ghost predicate PcRoleKept(before: Pc, after: Option<Pc>, t: Id) {
    && (RetainedContext(before).Some? && RetainedContext(before) != Some(t) ==>
         after.Some? && RetainedContext(after.value) == RetainedContext(before))
    && match before
       case InAwait(step) => step.AwaitRegister? ==> step.ctx == t
       case InInvalidate(_, step) => step.InvDrop? ==> step.dropped == t
       case InDeliver(f, pending, _) =>
         (exists i :: 0 <= i < |pending| && pending[i].token != t) ==>
           && after.Some? && after.value.InDeliver? && after.value.fut == f
           && forall u :: u in Tokens(pending) && u != t ==> u in Tokens(after.value.pending)
       case InCallback(c, _) => c != t ==> after.Some? && after.value.InCallback? && after.value.ctx == c
       case _ => true
  }

  /** Only activity `a` and freshly named activities differ. */
  ghost predicate OtherActsSame(s: State, s': State, a: Id) {
    && s.nextAct <= s'.nextAct
    && (forall b :: b in s.acts && b != a ==> b in s'.acts && s'.acts[b] == s.acts[b])
    && (forall b :: b in s'.acts && b != a && b !in s.acts ==> s.nextAct <= b)
  }

  /** Only registration `t` differs. */
  ghost predicate OtherRegsSame(s: State, s': State, t: Id) {
    && s.nextReg <= s'.nextReg
    && (forall u :: u in s.regs ==> u in s'.regs && (u != t ==> s'.regs[u] == s.regs[u]))
    && (forall u :: u in s'.regs && u !in s.regs ==> u == t)
  }

  /** No future loses its settlement, a queued entry or a holder, other than those of `t`. */
  ghost predicate FuturesGrow(s: State, s': State, t: Id) {
    forall f :: f in s.futures ==>
      && f in s'.futures
      && (s.futures[f].future.settlement.Settled? ==> s'.futures[f].future.settlement == s.futures[f].future.settlement)
      && (forall e :: e in s.futures[f].future.continuations && e.token != t ==>
            e in s'.futures[f].future.continuations)
      && (forall c :: AwaitHolder(c) in s.futures[f].holders && c != t ==> AwaitHolder(c) in s'.futures[f].holders)
  }

  ghost predicate OwnersKept(s: State, s': State, t: Id) {
    && (forall c :: ContextOwner(c) in s.life.owners && c != t ==> ContextOwner(c) in s'.life.owners)
    && (forall c :: c != t ==> (s.await.context == Some(c) <==> s'.await.context == Some(c)))
    && s.await.generation <= s'.await.generation
    && (s'.await.registered ==>
         (s.await.registered && s'.await.context == s.await.context) || s.await.generation < s'.await.generation)
  }

  lemma OtherReg(s: State, s': State, a: Id, t: Id, u: Id)
    requires u in s.regs && u in s'.regs && u != t && RegOk(s, u)
    requires OtherActsSame(s, s', a) && RoleKept(PcOf(s.acts, a), PcOf(s'.acts, a), t)
    requires OtherRegsSame(s, s', t) && FuturesGrow(s, s', t) && OwnersKept(s, s', t)
    ensures RegOk(s', u)
  {
    var b := PlaceAct(s.regs[u].place);
    if b != a && b in s.acts {
      assert PcOf(s'.acts, b) == PcOf(s.acts, b);
    }
    assert RegPlace(s'.futures[s.regs[u].home].future, PcOf(s'.acts, b), u, s.regs[u]);
  }

  lemma OtherRegs(s: State, s': State, a: Id, t: Id)
    requires RegsOk(s)
    requires OtherActsSame(s, s', a) && RoleKept(PcOf(s.acts, a), PcOf(s'.acts, a), t)
    requires OtherRegsSame(s, s', t) && FuturesGrow(s, s', t) && OwnersKept(s, s', t)
    requires t in s'.regs ==> RegOk(s', t)
    ensures RegsOk(s')
  {
    forall u | u in s'.regs ensures RegOk(s', u) {
      if u != t { OtherReg(s, s', a, t, u); }
    }
  }

  /** An update of registration `t` by activity `a` leaves what belongs to others as it was. */
  ghost predicate UpdatedBy(before: Registration, after: Registration, a: Id) {
    && after.isAwait == before.isAwait && after.home == before.home
    && (before.id != 0 ==> after.id == before.id)
    && (PlaceAct(before.place) !in {-1, a} ==> after.place == before.place && after.call == before.call)
    && (before.retain.ByActivity? && before.retain.act != a ==> after.retain == before.retain)
    && (after.place.Detaching? || after.place.Detached? ==> before.retain.ByActivity? && before.retain.act == a)
  }

  ghost predicate RegUpdated(s: State, s': State, a: Id, t: Id) {
    && s'.regs == (if t in s'.regs then s.regs[t := s'.regs[t]] else s.regs)
    && (t in s.regs && t in s'.regs ==> UpdatedBy(s.regs[t], s'.regs[t], a))
  }

  lemma OtherActRegs(regs: map<Id, Registration>, a: Id, t: Id, r: Registration, b: Id, pc: Pc)
    requires ActRegs(regs, b, pc) && 0 <= b && b != a
    requires t in regs ==> UpdatedBy(regs[t], r, a)
    ensures ActRegs(regs[t := r], b, pc)
  {
  }

  /** Calls made by a running pass still run inside one. */
  ghost predicate PassKept(s: State, s': State, a: Id) {
    (exists b :: b in s.acts && b != a && s.acts[b].viaPass) && MayUseFrame(s, true) ==> MayUseFrame(s', true)
  }

  /** What the frame grants to activities other than `a` is still granted. */
  ghost predicate GrantsKept(s: State, s': State, a: Id) {
    && s.futures.Keys <= s'.futures.Keys
    && (HandleOwner in s.life.owners ==> HandleOwner in s'.life.owners)
    && (forall b :: b != a && GuardOwner(b) in s.life.owners ==> GuardOwner(b) in s'.life.owners)
    && (s.life.dtor.Some? ==> s'.life.dtor == s.life.dtor)
    && PassKept(s, s', a)
    && (s.poll.poller.Some? && s.poll.poller != Some(a) ==> s'.poll.poller == s.poll.poller)
    && (s'.await.registered ==> s.await.registered || forall b :: b in s.acts && b != a ==> !Busy(s.acts[b].pc))
  }

  /** The terminal record is unchanged and the completion future lost nothing. */
  ghost predicate TermKept(s: State, s': State) {
    && s'.term == s.term
    && (CompletionCell(s).Some? ==>
         var before, after := CompletionCell(s).value, CompletionCell(s');
         && after.Some?
         && (before.future.settlement.Settled? ==> after.value.future.settlement.Settled?)
         && (CompletionHolder in before.holders ==> CompletionHolder in after.value.holders))
  }

  /** No activity other than `a` is carrying out a terminal request or the destructor. */
  ghost predicate SoleTerminal(s: State, a: Id) {
    forall b :: b in s.acts && b != a ==> Winning(s.acts[b].pc).None? && !DtorPc(s.acts[b].pc)
  }

  lemma OtherAct(s: State, s': State, a: Id, t: Id, b: Id)
    requires b in s.acts && b != a && ActOk(s, b)
    requires OtherActsSame(s, s', a) && GrantsKept(s, s', a) && (TermKept(s, s') || SoleTerminal(s, a))
    requires RegUpdated(s, s', a, t)
    ensures ActOk(s', b)
  {
    if t in s'.regs {
      OtherActRegs(s.regs, a, t, s'.regs[t], b, s.acts[b].pc);
    }
  }

  lemma OtherActs(s: State, s': State, a: Id, t: Id)
    requires ActsOk(s)
    requires OtherActsSame(s, s', a) && GrantsKept(s, s', a) && (TermKept(s, s') || SoleTerminal(s, a))
    requires RegUpdated(s, s', a, t)
    requires forall b :: b in s'.acts && (b == a || b !in s.acts) ==> ActOk(s', b)
    ensures ActsOk(s')
  {
    forall b | b in s'.acts ensures ActOk(s', b) {
      if b in s.acts && b != a { OtherAct(s, s', a, t, b); }
    }
  }

  /** Future `g` neither queues `t` nor is released by it. */
  lemma OtherFuture(regs: map<Id, Registration>, t: Id, r: Registration, completion: Id, g: Id, cell: FutureCell)
    requires FutureOk(regs, completion, g, cell)
    requires t in regs ==> r.isAwait == regs[t].isAwait && r.home == regs[t].home
    requires t in regs && regs[t].home == g && regs[t].place.Queued? ==> r.place.Queued? && r.id == regs[t].id
    requires AwaitHolder(t) in cell.holders ==> !r.retain.Released?
    ensures FutureOk(regs[t := r], completion, g, cell)
  {
  }

  // ---------- steps that only move one activity ----------

  /** Nothing shared changes except the poll flags and the token id of the registered await. */
  ghost predicate SharedSame(s: State, s': State) {
    && s'.futures == s.futures && s'.regs == s.regs && s'.nextReg == s.nextReg
    && s'.life == s.life && s'.term == s.term && s'.poll.poller == s.poll.poller
    && s'.await.registered == s.await.registered && s'.await.context == s.await.context
    && s'.await.generation == s.await.generation
  }

  function WinningOf(pc: Option<Pc>): Option<Terminal> {
    if pc.Some? then Winning(pc.value) else None
  }

  predicate GuardedAt(pc: Option<Pc>) {
    pc.Some? && Guarded(pc.value)
  }

  /** One activity moves, starts or ends without changing its role. */
  lemma QuietKeeps(s: State, s': State, a: Id)
    requires Inv(s) && SharedSame(s, s') && OtherActsSame(s, s', a) && s'.acts.Keys <= s.acts.Keys + {a}
    requires (a in s.acts || s.nextAct <= a) && RoleKept(PcOf(s.acts, a), PcOf(s'.acts, a), s.nextReg)
    requires WinningOf(PcOf(s'.acts, a)) == WinningOf(PcOf(s.acts, a))
    requires GuardedAt(PcOf(s'.acts, a)) == GuardedAt(PcOf(s.acts, a))
    requires GateOk(s'.acts) && PollOk(s'.poll, s'.acts, s'.term.intent)
    requires AwaitOk(s'.await, s'.regs, s'.acts, s'.term.lifecycle, WinnerPc(s'))
    requires PassKept(s, s', a)
    requires a in s'.acts ==> ActOk(s', a)
    ensures Inv(s')
  {
    assert RegsOk(s') by { OtherRegs(s, s', a, s.nextReg); }
    assert ActsOk(s') by { OtherActs(s, s', a, s.nextReg); }
  }

  ghost predicate At(s: State, a: Id, pc: Pc) {
    Inv(s) && a in s.acts && s.acts[a].pc == pc && Ready(s, a)
  }

  /** As `At`, but only what concerns the frame and this activity. */
  ghost predicate CoreAt(s: State, a: Id, pc: Pc) {
    CoreOk(s) && a in s.acts && s.acts[a].pc == pc && ActOk(s, a) && Ready(s, a)
  }

  /** One activity moves without entering the gate, or enters it when it is free. */
  lemma GateMoves(acts: map<Id, Activity>, a: Id, pc: Pc)
    requires GateOk(acts) && a in acts
    requires HoldsGate(pc) ==>
      || (HoldsGate(acts[a].pc) && (Busy(pc) ==> Busy(acts[a].pc)))
      || (forall b :: b in acts && b != a && HoldsGate(acts[b].pc) ==>
            acts[b].thread == acts[a].thread && !Busy(acts[b].pc))
    ensures GateOk(acts[a := acts[a].(pc := pc)])
  {
  }

  lemma GateShrinks(before: map<Id, Activity>, after: map<Id, Activity>)
    requires GateOk(before)
    requires forall b :: b in after && HoldsGate(after[b].pc) ==>
      && b in before && HoldsGate(before[b].pc) && after[b].thread == before[b].thread
      && (Busy(after[b].pc) ==> Busy(before[b].pc))
    ensures GateOk(after)
  {
  }

  /** Life and terminal record are untouched, and `a` keeps its guard and its intent. */
  lemma FrameMoves(s: State, s': State, a: Id)
    requires FrameOk(s) && s'.life == s.life && s'.term == s.term && s'.futures == s.futures && s.nextAct <= s'.nextAct
    requires forall c :: IsAwait(s.regs, c) && !Consumed(s.regs[c].place) ==>
      IsAwait(s'.regs, c) && !Consumed(s'.regs[c].place)
    requires forall b :: b in s.acts && b != a ==> b in s'.acts && s'.acts[b] == s.acts[b]
    requires forall b :: b in s'.acts && b != a && b !in s.acts ==> s.nextAct <= b
    requires a in s.acts && WinningOf(PcOf(s'.acts, a)) == WinningOf(PcOf(s.acts, a))
    requires GuardedAt(PcOf(s'.acts, a)) == GuardedAt(PcOf(s.acts, a))
    ensures FrameOk(s')
  {
    if s.term.winner.Some? {
      var w := s.term.winner.value;
      assert w != a && w in s.acts ==> s'.acts[w] == s.acts[w];
    }
  }

  /** The callback of a registered await has not reached its generation test yet. */
  predicate BeforeTest(pc: Pc) {
    pc.InCallback? && (pc.cb.CbEnter? || pc.cb.CbRegion?)
  }

  lemma AwaitMoves(s: State, acts: map<Id, Activity>, a: Id)
    requires AwaitOk(s.await, s.regs, s.acts, s.term.lifecycle, WinnerPc(s))
    requires forall b :: b in s.acts && b != a ==> b in acts && acts[b] == s.acts[b]
    requires a in s.acts && BeforeTest(s.acts[a].pc) ==> a in acts && BeforeTest(acts[a].pc)
    ensures AwaitOk(s.await, s.regs, acts, s.term.lifecycle, WinnerPc(s))
  {
  }

  /** An accepted callback that has yet to request its pass. */
  predicate Waking(pc: Pc) {
    pc.InCallback? && (pc.cb.CbReleaseFuture? || pc.cb.CbRequest?)
  }

  lemma PollMoves(poll: Poll, before: map<Id, Activity>, after: map<Id, Activity>, a: Id, intent: Intent)
    requires PollOk(poll, before, intent)
    requires forall b :: b in before && b != a ==> b in after && after[b] == before[b]
    requires a in before && LoopPc(before[a].pc) ==> a in after && LoopPc(after[a].pc)
    requires a in before && Waking(before[a].pc) ==> a in after && Waking(after[a].pc)
    ensures PollOk(poll, after, intent)
  {
    if poll.poller.Some? && poll.poller.value != a {
      assert after[poll.poller.value] == before[poll.poller.value];
    }
  }

  /** Moving `a` to `pc` changes neither its role nor what others rely on. */
  ghost predicate Quiet(s: State, a: Id, pc: Pc) {
    && a in s.acts && PcRoleKept(s.acts[a].pc, Some(pc), s.nextReg)
    && Winning(pc) == Winning(s.acts[a].pc) && Guarded(pc) == Guarded(s.acts[a].pc)
    && (LoopPc(s.acts[a].pc) ==> LoopPc(pc)) && (Waking(s.acts[a].pc) ==> Waking(pc))
    && (InvalidationAhead(Some(s.acts[a].pc)) ==> InvalidationAhead(Some(pc)))
    && (PassPc(s.acts[a].pc) && !PassPc(pc) ==> forall b :: b in s.acts ==> !s.acts[b].viaPass)
  }

  /** The callback of the registered await stays in front of its generation test. */
  ghost predicate TestKept(s: State, a: Id, pc: Pc)
    requires a in s.acts
  {
    BeforeTest(s.acts[a].pc) ==>
      BeforeTest(pc)
        || (s.await.context.Some? && IsAwait(s.regs, s.await.context.value) ==>
              s.regs[s.await.context.value].place != Calling(a))
  }

  lemma AwaitGoto(s: State, a: Id, pc: Pc)
    requires AwaitOk(s.await, s.regs, s.acts, s.term.lifecycle, WinnerPc(s)) && a in s.acts && TestKept(s, a, pc)
    requires InvalidationAhead(Some(s.acts[a].pc)) ==> InvalidationAhead(Some(pc))
    ensures var s' := Goto(s, a, pc); AwaitOk(s'.await, s'.regs, s'.acts, s'.term.lifecycle, WinnerPc(s'))
  {
  }

  /** One activity moves on without changing its role. */
  lemma QuietGoto(s: State, a: Id, pc: Pc)
    requires Inv(s) && Quiet(s, a, pc) && TestKept(s, a, pc)
    requires GateOk(Goto(s, a, pc).acts) && ActOk(Goto(s, a, pc), a)
    ensures Inv(Goto(s, a, pc))
  {
    var s' := Goto(s, a, pc);
    AwaitGoto(s, a, pc);
    PollMoves(s.poll, s.acts, s'.acts, a, s.term.intent);
    QuietKeeps(s, s', a);
  }

  /** Inside await_poll, from one region to the next. */
  lemma AwaitShift(s: State, a: Id, pc: Pc)
    requires Inv(s) && a in s.acts && s.acts[a].pc.InAwait? && !s.acts[a].pc.await.AwaitRegister?
    requires Busy(s.acts[a].pc) || GateFree(s, s.acts[a].thread)
    requires if pc.InAwait? then pc.await.AwaitProbe? || pc.await.AwaitCheck?
      else pc.InInvalidate? && pc.inv.InvRegion? && !pc.after.ToSettle?
    requires ActNames(s.futures.Keys, s.nextAct, a, pc)
    ensures Inv(Goto(s, a, pc))
  {
    assert ActOk(s, a);
    GateMoves(s.acts, a, pc);
    QuietGoto(s, a, pc);
  }

  /** A call ends that others do not rely on. */
  lemma EndKeeps(s: State, a: Id)
    requires Inv(s) && a in s.acts && PcRoleKept(s.acts[a].pc, None, s.nextReg) && Winning(s.acts[a].pc).None?
    requires !LoopPc(s.acts[a].pc) && !Waking(s.acts[a].pc) && !BeforeTest(s.acts[a].pc) && PassKept(s, End(s, a), a)
    ensures Inv(End(s, a))
  {
    var s' := End(s, a);
    GateShrinks(s.acts, s'.acts);
    PollMoves(s.poll, s.acts, s'.acts, a, s.term.intent);
    AwaitMoves(s, s'.acts, a);
    QuietKeeps(s, s', a);
  }

  /** A call returns; it held no registration, guard, poll loop or intent. */
  lemma ReturnKeeps(s: State, a: Id)
    requires Inv(s) && a in s.acts && Unguarded(s.acts[a].pc) && WinningOf(PcOf(s.acts, a)).None?
    requires s.acts[a].pc.InAwait? ==> !s.acts[a].pc.await.AwaitRegister?
    requires !s.acts[a].pc.InInvalidate?
    ensures Inv(End(s, a))
  {
    EndKeeps(s, a);
  }

  lemma AwaitProbeKeeps(s: State, a: Id, f: Id, resume: int)
    requires At(s, a, InAwait(AwaitProbe(f, resume)))
    ensures Inv(ProbeAwait(s, a, f, resume))
  {
    if s.term.lifecycle != Active {
      ReturnKeeps(s, a);
    } else {
      AwaitShift(s, a, ProbeAwait(s, a, f, resume).acts[a].pc);
    }
  }

  lemma AwaitCheckKeeps(s: State, a: Id, f: Id, resume: int)
    requires At(s, a, InAwait(AwaitCheck(f, resume)))
    ensures Inv(CheckAwait(s, a, f, resume))
  {
    if CheckAwait(s, a, f, resume) == End(s, a) {
      ReturnKeeps(s, a);
    } else {
      AwaitShift(s, a, InInvalidate(ToArm(f, resume), InvRegion));
    }
  }

  lemma AwaitPublishKeeps(s: State, a: Id, resume: int, value: int, status: int)
    requires At(s, a, InAwait(AwaitPublish(resume, value, status)))
    ensures Inv(PublishReady(s, a, resume, value, status))
  {
    EndKeeps(s, a);
    PublishedFree(End(s, a), PublishReady(s, a, resume, value, status).published);
  }

  /** The invariant does not mention what was published last. */
  lemma PublishedFree(s: State, published: Published)
    requires Inv(s)
    ensures Inv(s.(published := published))
  {
  }

  lemma AwaitTokenKeeps(s: State, a: Id, c: Id, id: int)
    requires At(s, a, InAwait(AwaitToken(c, id)))
    ensures Inv(PublishToken(s, a, c, id))
  {
    assert ActOk(s, a);
    if PublishToken(s, a, c, id) == End(s, a) {
      ReturnKeeps(s, a);
    } else {
      TokenKeeps(s, a, c, id);
    }
  }

  lemma TokenKeeps(s: State, a: Id, c: Id, id: int)
    requires At(s, a, InAwait(AwaitToken(c, id)))
    requires PublishToken(s, a, c, id) == End(s.(await := s.await.(continuationId := id)), a)
    requires s.await.registered && s.await.context == Some(c)
    ensures Inv(PublishToken(s, a, c, id))
  {
    assert ActOk(s, a);
    QuietKeeps(s, PublishToken(s, a, c, id), a);
  }

  lemma TermEnterKeeps(s: State, a: Id, kind: Terminal)
    requires At(s, a, InTerminal(kind, TermEnter))
    ensures Inv(Goto(s, a, InTerminal(kind, TermCas)))
  {
    assert ActOk(s, a);
    GateMoves(s.acts, a, InTerminal(kind, TermCas));
    QuietGoto(s, a, InTerminal(kind, TermCas));
  }

  lemma CallbackEnterKeeps(s: State, a: Id, c: Id, value: int, status: int)
    requires At(s, a, InCallback(c, CbEnter(value, status)))
    ensures Inv(Goto(s, a, InCallback(c, CbRegion(value, status))))
  {
    assert ActOk(s, a);
    GateMoves(s.acts, a, InCallback(c, CbRegion(value, status)));
    QuietGoto(s, a, InCallback(c, CbRegion(value, status)));
  }

  /** The gate is taken again after a yield; the loop still owns the poll. */
  lemma RelockKeeps(s: State, a: Id, c: Id)
    requires At(s, a, InCallback(c, LoopYield))
    ensures Inv(Goto(s, a, InCallback(c, LoopCheck(0))))
  {
    assert ActOk(s, a);
    GateMoves(s.acts, a, InCallback(c, LoopCheck(0)));
    QuietGoto(s, a, InCallback(c, LoopCheck(0)));
  }

  lemma EndPassKeeps(s: State, a: Id, c: Id, passes: int)
    requires At(s, a, InCallback(c, InPass(passes)))
    ensures Inv(EndPass(s, a, c, passes))
  {
    var pc := EndPass(s, a, c, passes).acts[a].pc;
    assert ActOk(s, a);
    GateMoves(s.acts, a, pc);
    QuietGoto(s, a, pc);
  }

  /** A call that is about to start: nothing is held yet. */
  ghost predicate Startable(s: State, act: Activity) {
    && ActNames(s.futures.Keys, s.nextAct + 1, s.nextAct, act.pc)
    && match act.pc
       case InAwait(step) => step.AwaitEnter? && MayUseFrame(s, act.viaPass)
       case InTerminal(_, step) => step.TermClaim? && MayUseFrame(s, act.viaPass)
       case InFinish(_, _) => !act.viaPass
       case _ => false
  }

  lemma StartedOk(s: State, act: Activity)
    requires Startable(s, act) && PollOk(s.poll, s.acts, s.term.intent) && s.nextAct !in s.acts
    ensures ActOk(Spawn(s, act), s.nextAct)
  {
  }

  lemma StartKeeps(s: State, act: Activity)
    requires Inv(s) && Startable(s, act)
    ensures Inv(Spawn(s, act))
  {
    assert s.nextAct !in s.acts;
    StartedOk(s, act);
    StartedFrame(s, act);
    QuietKeeps(s, Spawn(s, act), s.nextAct);
  }

  lemma StartedFrame(s: State, act: Activity)
    requires CoreOk(s) && Startable(s, act) && s.nextAct !in s.acts
    ensures var s' := Spawn(s, act);
      GateOk(s'.acts) && PollOk(s'.poll, s'.acts, s'.term.intent)
        && AwaitOk(s'.await, s'.regs, s'.acts, s'.term.lifecycle, WinnerPc(s')) && PassKept(s, s', s.nextAct)
  {
    AwaitMoves(s, Spawn(s, act).acts, s.nextAct);
    PollMoves(s.poll, s.acts, Spawn(s, act).acts, s.nextAct, s.term.intent);
  }

  // ---------- the frame is alive while it is used ----------

  /** A call that uses the frame, or holds a reference to it, runs before the destructor starts. */
  lemma FrameAlive(s: State, a: Id)
    requires Inv(s) && a in s.acts
    requires Unguarded(s.acts[a].pc) || Guarded(s.acts[a].pc) || s.acts[a].pc.InCallback?
    ensures s.life.owners != {} && s.life.dtor.None? && s.life.references > 0 && s.term.lifecycle != Destroying
    ensures forall b :: b in s.acts ==> !DtorPc(s.acts[b].pc)
  {
    assert ActOk(s, a);
    if s.acts[a].pc.InCallback? {
      CallbackOwns(s, a);
    } else if s.acts[a].viaPass {
      CallbackOwns(s, s.poll.poller.value);
    }
    assert forall b :: b in s.acts ==> ActOk(s, b);
  }

  lemma CallbackOwns(s: State, a: Id)
    requires Inv(s) && a in s.acts && s.acts[a].pc.InCallback?
    ensures ContextOwner(s.acts[a].pc.ctx) in s.life.owners
  {
    assert ActOk(s, a);
    assert RegOk(s, s.acts[a].pc.ctx);
  }

  /** The winner is the only activity on the terminal path. */
  lemma WinnerAlone(s: State, a: Id)
    requires Inv(s) && a in s.acts && Winning(s.acts[a].pc).Some?
    ensures SoleTerminal(s, a) && s.term.winner == Some(a)
  {
    FrameAlive(s, a);
    assert ActOk(s, a);
    forall b | b in s.acts && b != a ensures Winning(s.acts[b].pc).None? {
      assert ActOk(s, b);
    }
  }

  // ---------- terminal steps ----------

  lemma ClaimKeeps(s: State, a: Id, kind: Terminal)
    requires At(s, a, InTerminal(kind, TermClaim))
    ensures Inv(ClaimIntent(s, a, kind))
  {
    if s.term.intent != NoIntent {
      ReturnKeeps(s, a);
    } else {
      FrameAlive(s, a);
      NoneTerminal(s, a);
      assert s.nextReg !in s.regs;
      ClaimKeepsRegs(s, a, kind);
      ClaimKeepsActs(s, a, kind);
    }
  }

  /** Before an intent is claimed nobody carries out a terminal request. */
  lemma NoneTerminal(s: State, a: Id)
    requires CoreOk(s) && ActsOk(s) && s.term.intent == NoIntent && s.life.dtor.None?
    ensures SoleTerminal(s, a)
  {
    forall b | b in s.acts && b != a ensures Winning(s.acts[b].pc).None? && !DtorPc(s.acts[b].pc) {
      assert ActOk(s, b);
    }
  }

  lemma ClaimKeepsRegs(s: State, a: Id, kind: Terminal)
    requires CoreAt(s, a, InTerminal(kind, TermClaim)) && RegsOk(s) && s.term.intent == NoIntent
    ensures RegsOk(ClaimIntent(s, a, kind))
  {
    OtherRegs(s, ClaimIntent(s, a, kind), a, s.nextReg);
  }

  lemma ClaimKeepsActs(s: State, a: Id, kind: Terminal)
    requires CoreAt(s, a, InTerminal(kind, TermClaim)) && ActsOk(s) && s.term.intent == NoIntent && SoleTerminal(s, a)
    requires s.nextReg !in s.regs && s.life.dtor.None?
    ensures ActsOk(ClaimIntent(s, a, kind))
  {
    OtherActs(s, ClaimIntent(s, a, kind), a, s.nextReg);
  }

  /** Steps of the winner that change only the terminal record. */
  ghost predicate WinnerMove(s: State, s': State, a: Id) {
    && a in s.acts && Winning(s.acts[a].pc).Some? && Busy(s.acts[a].pc)
    && a in s'.acts && Winning(s'.acts[a].pc) == Winning(s.acts[a].pc) && Busy(s'.acts[a].pc)
    && RetainedContext(s.acts[a].pc).None? && RetainedContext(s'.acts[a].pc).None?
    && s' == s.(acts := s'.acts, term := s'.term, published := s'.published)
    && s'.acts == s.acts[a := s.acts[a].(pc := s'.acts[a].pc)]
    && s'.term.winner == s.term.winner && s'.term.intent == s.term.intent && s'.term.byWinner == s.term.byWinner
    && s'.term.completion == s.term.completion && Guarded(s'.acts[a].pc) == Guarded(s.acts[a].pc)
    && !s'.term.lifecycle.Destroying? && (s.term.byWinner ==> s'.term.result == s.term.result)
    && (s.await.registered ==> s.term.lifecycle == Active || InvalidationAhead(Some(s.acts[a].pc)))
    && (s.await.registered ==> s'.term.lifecycle == Active || InvalidationAhead(Some(s'.acts[a].pc)))
    && ActOk(s', a)
  }

  lemma WinnerMoves(s: State, s': State, a: Id)
    requires Inv(s) && WinnerMove(s, s', a)
    ensures Inv(s')
  {
    WinnerAlone(s, a);
    assert s.nextReg !in s.regs;
    WinnerMovesRegs(s, s', a);
    WinnerMovesActs(s, s', a);
    WinnerMovesCore(s, s', a);
  }

  lemma WinnerMovesRegs(s: State, s': State, a: Id)
    requires CoreOk(s) && RegsOk(s) && WinnerMove(s, s', a)
    ensures RegsOk(s')
  {
    OtherRegs(s, s', a, s.nextReg);
  }

  lemma WinnerMovesActs(s: State, s': State, a: Id)
    requires CoreOk(s) && ActsOk(s) && WinnerMove(s, s', a) && SoleTerminal(s, a) && s.nextReg !in s.regs
    ensures ActsOk(s')
  {
    OtherActs(s, s', a, s.nextReg);
  }

  lemma WinnerMovesCore(s: State, s': State, a: Id)
    requires CoreOk(s) && WinnerMove(s, s', a) && ActOk(s, a)
    ensures CoreOk(s')
  {
  }

  lemma CasKeeps(s: State, a: Id, kind: Terminal)
    requires At(s, a, InTerminal(kind, TermCas))
    ensures Inv(CasLifecycle(s, a, kind))
  {
    assert ActOk(s, a);
    WinnerMoves(s, CasLifecycle(s, a, kind), a);
  }

  lemma StoreKeeps(s: State, a: Id, kind: Terminal)
    requires At(s, a, InTerminal(kind, TermStore))
    ensures Inv(StoreTerminal(s, a, kind))
  {
    assert ActOk(s, a);
    WinnerMoves(s, StoreTerminal(s, a, kind), a);
  }

  lemma PublishKeeps(s: State, a: Id, kind: Terminal)
    requires At(s, a, InTerminal(kind, TermPublish))
    ensures Inv(PublishLifecycle(s, a, kind))
  {
    assert ActOk(s, a);
    WinnerMoves(s, PublishLifecycle(s, a, kind), a);
  }

  lemma GuardKeepsCore(s: State, a: Id, kind: Terminal)
    requires CoreAt(s, a, InTerminal(kind, TermGuard)) && s.life.dtor.None?
    ensures CoreOk(Goto(RetainFrame(s, GuardOwner(a)), a, InTerminal(kind, TermStore)))
  {
    var s' := Goto(RetainFrame(s, GuardOwner(a)), a, InTerminal(kind, TermStore));
    GateMoves(s.acts, a, s'.acts[a].pc);
    PollMoves(s.poll, s.acts, s'.acts, a, s.term.intent);
    AwaitMoves(s, s'.acts, a);
  }

  lemma GuardKeepsRegs(s: State, a: Id, kind: Terminal)
    requires CoreAt(s, a, InTerminal(kind, TermGuard)) && RegsOk(s) && s.nextReg !in s.regs
    ensures RegsOk(Goto(RetainFrame(s, GuardOwner(a)), a, InTerminal(kind, TermStore)))
  {
    OtherRegs(s, Goto(RetainFrame(s, GuardOwner(a)), a, InTerminal(kind, TermStore)), a, s.nextReg);
  }

  lemma GuardKeepsActs(s: State, a: Id, kind: Terminal)
    requires CoreAt(s, a, InTerminal(kind, TermGuard)) && ActsOk(s) && s.nextReg !in s.regs && s.life.dtor.None?
    ensures ActsOk(Goto(RetainFrame(s, GuardOwner(a)), a, InTerminal(kind, TermStore)))
  {
    OtherActs(s, Goto(RetainFrame(s, GuardOwner(a)), a, InTerminal(kind, TermStore)), a, s.nextReg);
  }

  // ---------- dropping a frame reference ----------

  /** Whatever an activity drops, the destructor starts exactly when nothing is left. */
  lemma ReleaseLife(life: Life, owner: Owner)
    requires owner in life.owners && life.references == |life.owners|
    ensures life.references - 1 == |life.owners - {owner}|
    ensures life.references == 1 <==> life.owners - {owner} == {}
  {
    if |life.owners| == 1 {
      assert |life.owners - {owner}| == 0;
    }
  }

  lemma UnguardKeepsCore(s: State, a: Id, kind: Terminal)
    requires At(s, a, InTerminal(kind, TermUnguard))
    ensures CoreOk(End(ReleaseFrame(s, GuardOwner(a), s.acts[a].thread), a))
  {
    WinnerAlone(s, a);
    FrameAlive(s, a);
    assert ActOk(s, a);
    ReleaseLife(s.life, GuardOwner(a));
  }

  lemma UnguardKeepsRegs(s: State, a: Id, kind: Terminal)
    requires CoreAt(s, a, InTerminal(kind, TermUnguard)) && RegsOk(s) && s.nextReg !in s.regs && s.nextAct !in s.acts
    ensures RegsOk(End(ReleaseFrame(s, GuardOwner(a), s.acts[a].thread), a))
  {
    OtherRegs(s, End(ReleaseFrame(s, GuardOwner(a), s.acts[a].thread), a), a, s.nextReg);
  }

  lemma UnguardKeepsActs(s: State, a: Id, kind: Terminal)
    requires CoreAt(s, a, InTerminal(kind, TermUnguard)) && ActsOk(s) && s.nextReg !in s.regs && s.nextAct !in s.acts
    requires SoleTerminal(s, a) && s.life.dtor.None?
    ensures ActsOk(End(ReleaseFrame(s, GuardOwner(a), s.acts[a].thread), a))
  {
    OtherActs(s, End(ReleaseFrame(s, GuardOwner(a), s.acts[a].thread), a), a, s.nextReg);
  }

  lemma CloseKeepsCore(s: State, thread: int)
    requires Inv(s) && Enabled(s, CloseHandle(thread))
    ensures CoreOk(ReleaseFrame(s, HandleOwner, thread))
  {
    ReleaseLife(s.life, HandleOwner);
  }

  lemma CloseKeepsRegs(s: State, thread: int)
    requires Inv(s) && Enabled(s, CloseHandle(thread))
    ensures RegsOk(ReleaseFrame(s, HandleOwner, thread))
  {
    OtherRegs(s, ReleaseFrame(s, HandleOwner, thread), s.nextAct, s.nextReg);
  }

  lemma CloseKeepsActs(s: State, thread: int)
    requires CoreOk(s) && ActsOk(s) && Enabled(s, CloseHandle(thread))
    ensures ActsOk(ReleaseFrame(s, HandleOwner, thread))
  {
    var s' := ReleaseFrame(s, HandleOwner, thread);
    forall b | b in s'.acts ensures ActOk(s', b) {
      if b in s.acts { assert ActOk(s, b); }
    }
  }

  // ---------- polling ----------

  lemma RequestKeepsFrame(s: State, a: Id, c: Id)
    requires CoreAt(s, a, InCallback(c, CbRequest))
    ensures var s' := RequestPoll(s, a, c); FrameOk(s')
  {
  }

  lemma RequestKeepsCore(s: State, a: Id, c: Id)
    requires CoreAt(s, a, InCallback(c, CbRequest))
    ensures CoreOk(RequestPoll(s, a, c))
  {
    RequestKeepsFrame(s, a, c);
    AwaitMoves(s, RequestPoll(s, a, c).acts, a);
    GateMoves(s.acts, a, RequestPoll(s, a, c).acts[a].pc);
  }

  lemma RequestKeepsRegs(s: State, a: Id, c: Id)
    requires At(s, a, InCallback(c, CbRequest))
    ensures RegsOk(RequestPoll(s, a, c))
  {
    assert ActOk(s, a);
    OtherRegs(s, RequestPoll(s, a, c), a, s.nextReg);
  }

  lemma RequestKeepsActs(s: State, a: Id, c: Id)
    requires CoreAt(s, a, InCallback(c, CbRequest)) && ActsOk(s) && s.nextReg !in s.regs
    ensures ActsOk(RequestPoll(s, a, c))
  {
    RequestKeepsAct(s, a, c);
    OtherActs(s, RequestPoll(s, a, c), a, s.nextReg);
  }

  lemma RequestKeepsAct(s: State, a: Id, c: Id)
    requires CoreAt(s, a, InCallback(c, CbRequest))
    ensures ActOk(RequestPoll(s, a, c), a)
  {
  }

  lemma LoopKeepsCore(s: State, a: Id, c: Id, passes: int)
    requires CoreAt(s, a, InCallback(c, LoopCheck(passes))) && s.term.lifecycle != Destroying
    ensures CoreOk(CheckLoop(s, a, c, passes))
  {
    var s' := CheckLoop(s, a, c, passes);
    GateMoves(s.acts, a, s'.acts[a].pc);
    FrameMoves(s, s', a);
    AwaitMoves(s, s'.acts, a);
    StillWanted(s);
    LoopKeepsPoll(s, a, c, passes);
  }

  lemma StillWanted(s: State)
    requires FrameOk(s) && s.term.lifecycle != Destroying
    ensures s.term.lifecycle == Active || s.term.intent != NoIntent
  {
  }

  lemma LoopKeepsPoll(s: State, a: Id, c: Id, passes: int)
    requires PollOk(s.poll, s.acts, s.term.intent) && a in s.acts && s.acts[a].pc == InCallback(c, LoopCheck(passes))
    requires ActOk(s, a)
    requires s.term.lifecycle == Active || s.term.intent != NoIntent
    ensures var s' := CheckLoop(s, a, c, passes); PollOk(s'.poll, s'.acts, s'.term.intent)
  {
  }

  lemma LoopKeepsRegs(s: State, a: Id, c: Id, passes: int)
    requires At(s, a, InCallback(c, LoopCheck(passes)))
    ensures RegsOk(CheckLoop(s, a, c, passes))
  {
    assert ActOk(s, a);
    OtherRegs(s, CheckLoop(s, a, c, passes), a, s.nextReg);
  }

  lemma LoopKeepsActs(s: State, a: Id, c: Id, passes: int)
    requires CoreAt(s, a, InCallback(c, LoopCheck(passes))) && ActsOk(s) && s.nextReg !in s.regs
    ensures ActsOk(CheckLoop(s, a, c, passes))
  {
    LoopKeepsAct(s, a, c, passes);
    OtherActs(s, CheckLoop(s, a, c, passes), a, s.nextReg);
  }

  lemma LoopKeepsAct(s: State, a: Id, c: Id, passes: int)
    requires CoreAt(s, a, InCallback(c, LoopCheck(passes)))
    ensures ActOk(CheckLoop(s, a, c, passes), a)
  {
  }

  // ---------- the destructor ----------

  lemma DtorStoreKeeps(s: State, a: Id)
    requires At(s, a, InDtor(DtorStore))
    ensures Inv(Goto(s.(term := s.term.(lifecycle := Destroying)), a, InDtor(DtorAwaited)))
  {
    DtorAlone(s, a);
    assert ActOk(s, a) && s.nextReg !in s.regs;
    DtorStoreKeepsCore(s, a);
    DtorStoreKeepsRegs(s, a);
    DtorStoreKeepsActs(s, a);
  }

  lemma DtorStoreKeepsCore(s: State, a: Id)
    requires CoreAt(s, a, InDtor(DtorStore)) && SoleTerminal(s, a) && !s.await.registered
    ensures CoreOk(Goto(s.(term := s.term.(lifecycle := Destroying)), a, InDtor(DtorAwaited)))
  {
  }

  lemma DtorStoreKeepsRegs(s: State, a: Id)
    requires CoreAt(s, a, InDtor(DtorStore)) && RegsOk(s) && s.nextReg !in s.regs
    ensures RegsOk(Goto(s.(term := s.term.(lifecycle := Destroying)), a, InDtor(DtorAwaited)))
  {
    OtherRegs(s, Goto(s.(term := s.term.(lifecycle := Destroying)), a, InDtor(DtorAwaited)), a, s.nextReg);
  }

  lemma DtorStoreKeepsActs(s: State, a: Id)
    requires CoreAt(s, a, InDtor(DtorStore)) && ActsOk(s) && s.nextReg !in s.regs && SoleTerminal(s, a)
    ensures ActsOk(Goto(s.(term := s.term.(lifecycle := Destroying)), a, InDtor(DtorAwaited)))
  {
    OtherActs(s, Goto(s.(term := s.term.(lifecycle := Destroying)), a, InDtor(DtorAwaited)), a, s.nextReg);
  }

  lemma DtorAlone(s: State, a: Id)
    requires Inv(s) && a in s.acts && DtorPc(s.acts[a].pc)
    ensures s.life.owners == {} && !s.await.registered && SoleTerminal(s, a)
  {
    assert ActOk(s, a);
    forall b | b in s.acts && b != a ensures Winning(s.acts[b].pc).None? && !DtorPc(s.acts[b].pc) {
      assert ActOk(s, b);
      if Winning(s.acts[b].pc).Some? { FrameAlive(s, b); }
    }
  }

  lemma DtorAwaitedKeeps(s: State, a: Id)
    requires At(s, a, InDtor(DtorAwaited))
    ensures Inv(DestroyAwaited(s, a))
  {
    DtorAlone(s, a);
    QuietKeeps(s, DestroyAwaited(s, a), a);
  }

  lemma DtorReleaseKeepsRegs(s: State, a: Id)
    requires CoreAt(s, a, InDtor(DtorRelease)) && RegsOk(s) && s.nextReg !in s.regs
    ensures RegsOk(DestroyRelease(s, a))
  {
    OtherRegs(s, DestroyRelease(s, a), a, s.nextReg);
  }

  lemma DtorReleaseKeepsActs(s: State, a: Id)
    requires CoreAt(s, a, InDtor(DtorRelease)) && ActsOk(s) && s.nextReg !in s.regs && SoleTerminal(s, a)
    ensures ActsOk(DestroyRelease(s, a))
  {
    OtherActs(s, DestroyRelease(s, a), a, s.nextReg);
  }

  lemma DtorReleaseKeeps(s: State, a: Id)
    requires At(s, a, InDtor(DtorRelease))
    ensures Inv(DestroyRelease(s, a))
  {
    DtorAlone(s, a);
    assert ActOk(s, a) && s.nextReg !in s.regs;
    assert FutureOk(s.regs, s.term.completion, s.term.completion, s.futures[s.term.completion]);
    DtorReleaseKeepsRegs(s, a);
    DtorReleaseKeepsActs(s, a);
  }

  // ---------- registering an await ----------

  lemma ArmKeepsCore(s: State, a: Id, f: Id, resume: int)
    requires CoreAt(s, a, InAwait(AwaitArm(f, resume))) && s.term.lifecycle == Active
    requires s.life.dtor.None? && s.nextReg !in s.regs
    ensures CoreOk(ArmAwait(s, a, f, resume))
  {
    var s' := ArmAwait(s, a, f, resume);
    assert ContextOwner(s.nextReg) !in s.life.owners;
    GateMoves(s.acts, a, s'.acts[a].pc);
    PollMoves(s.poll, s.acts, s'.acts, a, s.term.intent);
  }

  /** A future gains the reference of a new await on it. */
  lemma HeldFuture(regs: map<Id, Registration>, t: Id, r: Registration, completion: Id, f: Id, cell: FutureCell)
    requires FutureOk(regs, completion, f, cell) && t !in regs && r.isAwait && r.home == f && !r.retain.Released?
    ensures FutureOk(regs[t := r], completion, f, Hold(cell, AwaitHolder(t)))
  {
  }

  lemma ArmKeepsFutures(s: State, a: Id, f: Id, resume: int)
    requires FuturesOk(s) && a in s.acts && f in s.futures && s.nextReg !in s.regs && s.term.lifecycle == Active
    ensures FuturesOk(ArmAwait(s, a, f, resume))
  {
    var s', t := ArmAwait(s, a, f, resume), s.nextReg;
    forall g | g in s'.futures ensures FutureOk(s'.regs, s'.term.completion, g, s'.futures[g]) {
      if g == f {
        HeldFuture(s.regs, t, s'.regs[t], s.term.completion, f, s.futures[f]);
      } else {
        OtherFuture(s.regs, t, s'.regs[t], s.term.completion, g, s.futures[g]);
      }
    }
  }

  lemma ArmKeepsRegs(s: State, a: Id, f: Id, resume: int)
    requires At(s, a, InAwait(AwaitArm(f, resume))) && s.term.lifecycle == Active
    ensures RegsOk(ArmAwait(s, a, f, resume))
  {
    assert ActOk(s, a);
    OtherRegs(s, ArmAwait(s, a, f, resume), a, s.nextReg);
  }

  lemma ArmKeepsActs(s: State, a: Id, f: Id, resume: int)
    requires At(s, a, InAwait(AwaitArm(f, resume))) && s.term.lifecycle == Active
    ensures ActsOk(ArmAwait(s, a, f, resume))
  {
    assert ActOk(s, a) && s.nextReg !in s.regs;
    ArmKeepsOthers(s, a, f, resume);
  }

  lemma ArmKeepsOthers(s: State, a: Id, f: Id, resume: int)
    requires CoreAt(s, a, InAwait(AwaitArm(f, resume))) && ActsOk(s) && s.term.lifecycle == Active
    requires s.nextReg !in s.regs
    ensures ActsOk(ArmAwait(s, a, f, resume))
  {
    OtherActs(s, ArmAwait(s, a, f, resume), a, s.nextReg);
  }

  lemma QueueKeepsCore(s: State, a: Id, c: Id)
    requires CoreAt(s, a, InAwait(AwaitRegister(c))) && RegOk(s, c)
    requires s.futures[s.regs[c].home].future.settlement.Pending?
    ensures CoreOk(RegisterAwait(s, a, c))
  {
    var s' := RegisterAwait(s, a, c);
    GateMoves(s.acts, a, s'.acts[a].pc);
    PollMoves(s.poll, s.acts, s'.acts, a, s.term.intent);
    AwaitMoves(s, s'.acts, a);
  }

  lemma QueueKeepsFutures(s: State, a: Id, c: Id)
    requires At(s, a, InAwait(AwaitRegister(c))) && s.futures[s.regs[c].home].future.settlement.Pending?
    ensures FuturesOk(RegisterAwait(s, a, c))
  {
    var s', f := RegisterAwait(s, a, c), s.regs[c].home;
    assert ActOk(s, a);
    forall g | g in s'.futures ensures FutureOk(s'.regs, s'.term.completion, g, s'.futures[g]) {
      OtherFuture(s.regs, c, s'.regs[c], s.term.completion, g, s.futures[g]);
    }
  }

  lemma QueueKeepsRegs(s: State, a: Id, c: Id)
    requires At(s, a, InAwait(AwaitRegister(c))) && s.futures[s.regs[c].home].future.settlement.Pending?
    ensures RegsOk(RegisterAwait(s, a, c))
  {
    assert ActOk(s, a) && RegOk(s, c);
    assert FutureOk(s.regs, s.term.completion, s.regs[c].home, s.futures[s.regs[c].home]);
    OtherRegs(s, RegisterAwait(s, a, c), a, c);
  }

  lemma QueueKeepsActs(s: State, a: Id, c: Id)
    requires CoreAt(s, a, InAwait(AwaitRegister(c))) && ActsOk(s) && RegOk(s, c)
    requires var home := s.regs[c].home;
      s.futures[home].future.settlement.Pending? && FutureOk(s.regs, s.term.completion, home, s.futures[home])
    ensures ActsOk(RegisterAwait(s, a, c))
  {
    OtherActs(s, RegisterAwait(s, a, c), a, c);
  }

  // ---------- invalidating an await ----------

  lemma InvalidateKeepsCore(s: State, a: Id, after: AfterInvalidate)
    requires CoreAt(s, a, InInvalidate(after, InvRegion))
    ensures CoreOk(InvalidateRegion(s, a, after))
  {
    var s' := InvalidateRegion(s, a, after);
    GateMoves(s.acts, a, s'.acts[a].pc);
    PollMoves(s.poll, s.acts, s'.acts, a, s.term.intent);
  }

  /** The registration an invalidation takes over. */
  function Taken(s: State): Id {
    if s.await.context.Some? then s.await.context.value else s.nextReg
  }

  lemma InvalidateKeepsFutures(s: State, a: Id, after: AfterInvalidate)
    requires At(s, a, InInvalidate(after, InvRegion))
    ensures FuturesOk(InvalidateRegion(s, a, after))
  {
    var s' := InvalidateRegion(s, a, after);
    forall g | g in s'.futures ensures FutureOk(s'.regs, s'.term.completion, g, s'.futures[g]) {
      if s.await.registered { OtherFuture(s.regs, Taken(s), s'.regs[Taken(s)], s.term.completion, g, s.futures[g]); }
    }
  }

  lemma InvalidateKeepsRegs(s: State, a: Id, after: AfterInvalidate)
    requires CoreAt(s, a, InInvalidate(after, InvRegion)) && RegsOk(s)
    ensures RegsOk(InvalidateRegion(s, a, after))
  {
    assert Taken(s) in s.regs ==> RegOk(s, Taken(s));
    OtherRegs(s, InvalidateRegion(s, a, after), a, Taken(s));
  }

  lemma InvalidateKeepsActs(s: State, a: Id, after: AfterInvalidate)
    requires CoreAt(s, a, InInvalidate(after, InvRegion)) && ActsOk(s) && (Taken(s) in s.regs ==> RegOk(s, Taken(s)))
    ensures ActsOk(InvalidateRegion(s, a, after))
  {
    OtherActs(s, InvalidateRegion(s, a, after), a, Taken(s));
  }

  lemma RemoveMissKeeps(s: State, a: Id, after: AfterInvalidate, f: Id, c: Id, id: int)
    requires At(s, a, InInvalidate(after, InvRemove(f, c, id)))
    ensures Inv(Goto(s, a, InInvalidate(after, InvRelease(f, c))))
  {
    assert ActOk(s, a);
    GateMoves(s.acts, a, InInvalidate(after, InvRelease(f, c)));
    QuietGoto(s, a, InInvalidate(after, InvRelease(f, c)));
  }

  /** The entry found under the saved id is the saved context. */
  lemma RemovedIsSaved(s: State, a: Id, after: AfterInvalidate, f: Id, c: Id, id: int)
    requires At(s, a, InInvalidate(after, InvRemove(f, c, id))) && RemoveRegion(s.futures[f].future, id).1.Some?
    ensures RemoveRegion(s.futures[f].future, id).1 == Some(c) && s.regs[c].place == Queued && s.regs[c].home == f
    ensures s.futures[f].future.settlement.Pending?
  {
    assert ActOk(s, a) && RegOk(s, c);
    var future := s.futures[f].future;
    assert FutureOk(s.regs, s.term.completion, f, s.futures[f]);
    var k := IndexOf(future.continuations, id);
    var j :| 0 <= j < |future.continuations| && future.continuations[j] == Entry(s.regs[c].id, c);
    assert j == k;
  }

  /** Detaching the saved context, once it has been found in the queue. */
  ghost predicate Detaches(s: State, a: Id, after: AfterInvalidate, f: Id, c: Id, id: int) {
    && a in s.acts && s.acts[a].pc == InInvalidate(after, InvRemove(f, c, id)) && ActOk(s, a)
    && c in s.regs && RegOk(s, c) && s.regs[c].place == Queued && s.regs[c].home == f
    && f in s.futures && s.futures[f].future.settlement.Pending? && RemoveRegion(s.futures[f].future, id).1 == Some(c)
  }

  lemma RemoveKeepsCore(s: State, a: Id, after: AfterInvalidate, f: Id, c: Id, id: int)
    requires CoreOk(s) && Detaches(s, a, after, f, c, id)
    ensures CoreOk(InvalidateRemove(s, a, after, f, c, id))
  {
    var s' := InvalidateRemove(s, a, after, f, c, id);
    GateMoves(s.acts, a, s'.acts[a].pc);
    PollMoves(s.poll, s.acts, s'.acts, a, s.term.intent);
    AwaitMoves(s, s'.acts, a);
  }

  lemma RemoveKeepsRegs(s: State, a: Id, after: AfterInvalidate, f: Id, c: Id, id: int)
    requires RegsOk(s) && Detaches(s, a, after, f, c, id) && WellFormed(s.futures[f].future)
    ensures RegsOk(InvalidateRemove(s, a, after, f, c, id))
  {
    RemoveGrows(s, a, after, f, c, id);
    OtherRegs(s, InvalidateRemove(s, a, after, f, c, id), a, c);
  }

  lemma RemoveGrows(s: State, a: Id, after: AfterInvalidate, f: Id, c: Id, id: int)
    requires a in s.acts && f in s.futures && c in s.regs && WellFormed(s.futures[f].future)
    requires RemoveRegion(s.futures[f].future, id).1 == Some(c)
    ensures FuturesGrow(s, InvalidateRemove(s, a, after, f, c, id), c)
  {
    RemoveKeepsOthers(s.futures[f].future, id);
  }

  lemma RemoveKeepsActs(s: State, a: Id, after: AfterInvalidate, f: Id, c: Id, id: int)
    requires ActsOk(s) && Detaches(s, a, after, f, c, id) && PollOk(s.poll, s.acts, s.term.intent)
    ensures ActsOk(InvalidateRemove(s, a, after, f, c, id))
  {
    OtherActs(s, InvalidateRemove(s, a, after, f, c, id), a, c);
  }

  lemma RemoveKeepsFutures(s: State, a: Id, after: AfterInvalidate, f: Id, c: Id, id: int)
    requires FuturesOk(s) && Detaches(s, a, after, f, c, id)
    ensures FuturesOk(InvalidateRemove(s, a, after, f, c, id))
  {
    var s' := InvalidateRemove(s, a, after, f, c, id);
    assert FutureOk(s.regs, s.term.completion, f, s.futures[f]);
    forall g | g in s'.futures ensures FutureOk(s'.regs, s'.term.completion, g, s'.futures[g]) {
      if g == f {
        RemoveKeepsFuture(s.regs, s'.regs[c], s.term.completion, f, s.futures[f], c, id);
      } else {
        OtherFuture(s.regs, c, s'.regs[c], s.term.completion, g, s.futures[g]);
      }
    }
  }

  lemma RemoveKeepsFuture(regs: map<Id, Registration>, r: Registration, completion: Id, f: Id, cell: FutureCell, c: Id,
          id: int)
    requires FutureOk(regs, completion, f, cell) && RemoveRegion(cell.future, id).1 == Some(c)
    requires c in regs && r == regs[c].(place := r.place)
    ensures FutureOk(regs[c := r], completion, f, cell.(future := RemoveRegion(cell.future, id).0))
  {
    var next := RemoveRegion(cell.future, id).0;
    RemoveKeepsOthers(cell.future, id);
    forall e | e in next.continuations ensures e.token != c { OtherToken(regs, completion, f, cell, c, id, e); }
    RemovedFuture(regs, r, completion, f, cell, c, next);
  }

  /** An entry with another id has another token. */
  lemma OtherToken(regs: map<Id, Registration>, completion: Id, f: Id, cell: FutureCell, c: Id, id: int, e: Entry)
    requires FutureOk(regs, completion, f, cell) && RemoveRegion(cell.future, id).1 == Some(c)
    requires e in cell.future.continuations && e.id != id
    ensures e.token != c
  {
    var k := IndexOf(cell.future.continuations, id);
    assert cell.future.continuations[k].token == c && cell.future.continuations[k].id == id;
  }

  lemma RemovedFuture(regs: map<Id, Registration>, r: Registration, completion: Id, f: Id, cell: FutureCell, c: Id,
          next: Future)
    requires FutureOk(regs, completion, f, cell) && WellFormed(next) && c in regs && r == regs[c].(place := r.place)
    requires forall e :: e in next.continuations ==> e in cell.future.continuations && e.token != c
    ensures FutureOk(regs[c := r], completion, f, cell.(future := next))
  {
    forall i | 0 <= i < |next.continuations|
      ensures next.continuations[i].token != c && next.continuations[i] in cell.future.continuations {
      assert next.continuations[i] in next.continuations;
    }
  }

  lemma DropNotLast(s: State, a: Id, after: AfterInvalidate, f: Id, c: Id, t: Id)
    requires At(s, a, InInvalidate(after, InvDrop(f, c, t)))
    ensures s.life.references > 1 && ContextOwner(t) in s.life.owners
  {
    assert ActOk(s, a) && RegOk(s, c);
    ReleaseLife(s.life, ContextOwner(t));
    if s.acts[a].viaPass { CallbackOwns(s, s.poll.poller.value); }
  }

  lemma DropKeepsCore(s: State, a: Id, after: AfterInvalidate, f: Id, c: Id, t: Id)
    requires CoreAt(s, a, InInvalidate(after, InvDrop(f, c, t))) && s.life.references > 1
    requires ContextOwner(t) in s.life.owners
    ensures CoreOk(InvalidateDrop(s, a, after, f, c, t))
  {
    var s' := InvalidateDrop(s, a, after, f, c, t);
    ReleaseLife(s.life, ContextOwner(t));
    GateMoves(s.acts, a, s'.acts[a].pc);
    PollMoves(s.poll, s.acts, s'.acts, a, s.term.intent);
    AwaitMoves(s, s'.acts, a);
  }

  lemma DropKeepsFutures(s: State, a: Id, after: AfterInvalidate, f: Id, c: Id, t: Id)
    requires At(s, a, InInvalidate(after, InvDrop(f, c, t)))
    ensures FuturesOk(InvalidateDrop(s, a, after, f, c, t))
  {
    var s' := InvalidateDrop(s, a, after, f, c, t);
    assert ActOk(s, a);
    forall g | g in s'.futures ensures FutureOk(s'.regs, s'.term.completion, g, s'.futures[g]) {
      OtherFuture(s.regs, c, s'.regs[c], s.term.completion, g, s.futures[g]);
    }
  }

  lemma DropKeepsRegs(s: State, a: Id, after: AfterInvalidate, f: Id, c: Id, t: Id)
    requires At(s, a, InInvalidate(after, InvDrop(f, c, t)))
    ensures RegsOk(InvalidateDrop(s, a, after, f, c, t))
  {
    DropNotLast(s, a, after, f, c, t);
    assert ActOk(s, a) && RegOk(s, c);
    OtherRegs(s, InvalidateDrop(s, a, after, f, c, t), a, c);
  }

  lemma DropKeepsActs(s: State, a: Id, after: AfterInvalidate, f: Id, c: Id, t: Id)
    requires At(s, a, InInvalidate(after, InvDrop(f, c, t)))
    ensures ActsOk(InvalidateDrop(s, a, after, f, c, t))
  {
    DropNotLast(s, a, after, f, c, t);
    assert ActOk(s, a) && RegOk(s, c);
    DropKeepsOthers(s, a, after, f, c, t);
  }

  lemma DropKeepsOthers(s: State, a: Id, after: AfterInvalidate, f: Id, c: Id, t: Id)
    requires CoreAt(s, a, InInvalidate(after, InvDrop(f, c, t))) && ActsOk(s) && c in s.regs && RegOk(s, c)
    requires s.life.references > 1 && ContextOwner(t) in s.life.owners
    ensures ActsOk(InvalidateDrop(s, a, after, f, c, t))
  {
    OtherActs(s, InvalidateDrop(s, a, after, f, c, t), a, c);
  }

  /** The two places that call release_future on an awaited future, and where they go on. */
  ghost predicate Releases(pc: Pc, next: Pc, c: Id) {
    if pc.InInvalidate? then pc.inv.InvRelease? && pc.inv.saved == c && next == AfterInvalidation(pc.after)
    else pc == InCallback(c, CbReleaseFuture) && next == InCallback(c, CbRequest)
  }

  lemma ReleaseKeepsCore(s: State, a: Id, c: Id, next: Pc)
    requires CoreOk(s) && a in s.acts && Releases(s.acts[a].pc, next, c) && ActOk(s, a)
    requires c in s.regs && s.regs[c].home in s.futures && s.await.context != Some(c)
    ensures CoreOk(Goto(ReleaseAwaited(s, c), a, next))
  {
    var s' := Goto(ReleaseAwaited(s, c), a, next);
    GateMoves(s.acts, a, next);
    PollMoves(s.poll, s.acts, s'.acts, a, s.term.intent);
    AwaitMoves(s, s'.acts, a);
  }

  lemma ReleaseKeepsFutures(s: State, a: Id, c: Id, next: Pc)
    requires Inv(s) && a in s.acts && Releases(s.acts[a].pc, next, c) && c in s.regs && s.regs[c].home in s.futures
    ensures FuturesOk(Goto(ReleaseAwaited(s, c), a, next))
  {
    var s', f := Goto(ReleaseAwaited(s, c), a, next), s.regs[c].home;
    assert ActOk(s, a) && RegOk(s, c);
    forall g | g in s'.futures ensures FutureOk(s'.regs, s'.term.completion, g, s'.futures[g]) {
      assert FutureOk(s.regs, s.term.completion, g, s.futures[g]);
      if g != f { OtherFuture(s.regs, c, s'.regs[c], s.term.completion, g, s.futures[g]); }
    }
  }

  lemma ReleaseKeepsRegs(s: State, a: Id, c: Id, next: Pc)
    requires RegsOk(s) && a in s.acts && Releases(s.acts[a].pc, next, c) && ActOk(s, a) && c in s.regs
    requires s.regs[c].home in s.futures
    ensures RegsOk(Goto(ReleaseAwaited(s, c), a, next))
  {
    assert RegOk(s, c);
    OtherRegs(s, Goto(ReleaseAwaited(s, c), a, next), a, c);
  }

  lemma InvalidateReleaseKeepsActs(s: State, a: Id, after: AfterInvalidate, f: Id, c: Id)
    requires CoreAt(s, a, InInvalidate(after, InvRelease(f, c))) && ActsOk(s) && RegOk(s, c)
    ensures ActsOk(Goto(ReleaseAwaited(s, c), a, AfterInvalidation(after)))
  {
    OtherActs(s, Goto(ReleaseAwaited(s, c), a, AfterInvalidation(after)), a, c);
  }

  lemma CallbackReleaseKeepsActs(s: State, a: Id, c: Id)
    requires At(s, a, InCallback(c, CbReleaseFuture))
    ensures ActsOk(Goto(ReleaseAwaited(s, c), a, InCallback(c, CbRequest)))
  {
    assert ActOk(s, a) && RegOk(s, c);
    CallbackReleaseKeepsOthers(s, a, c);
  }

  lemma CallbackReleaseKeepsOthers(s: State, a: Id, c: Id)
    requires CoreAt(s, a, InCallback(c, CbReleaseFuture)) && ActsOk(s) && c in s.regs && RegOk(s, c)
    ensures ActsOk(Goto(ReleaseAwaited(s, c), a, InCallback(c, CbRequest)))
  {
    OtherActs(s, Goto(ReleaseAwaited(s, c), a, InCallback(c, CbRequest)), a, c);
  }

  // ---------- delivering continuations ----------

  lemma AcceptKeepsCore(s: State, a: Id, c: Id, value: int, status: int)
    requires At(s, a, InCallback(c, CbRegion(value, status))) && IsCurrent(s, c)
    ensures CoreOk(AcceptCallback(s, a, c, value, status))
  {
    assert ActOk(s, a) && RegOk(s, c);
  }

  lemma AcceptKeepsFutures(s: State, a: Id, c: Id, value: int, status: int)
    requires At(s, a, InCallback(c, CbRegion(value, status))) && IsCurrent(s, c)
    ensures FuturesOk(AcceptCallback(s, a, c, value, status))
  {
    var s' := AcceptCallback(s, a, c, value, status);
    assert ActOk(s, a);
    forall g | g in s'.futures ensures FutureOk(s'.regs, s'.term.completion, g, s'.futures[g]) {
      OtherFuture(s.regs, c, s'.regs[c], s.term.completion, g, s.futures[g]);
    }
  }

  lemma AcceptKeepsRegs(s: State, a: Id, c: Id, value: int, status: int)
    requires At(s, a, InCallback(c, CbRegion(value, status))) && IsCurrent(s, c)
    ensures RegsOk(AcceptCallback(s, a, c, value, status))
  {
    assert ActOk(s, a) && RegOk(s, c);
    OtherRegs(s, AcceptCallback(s, a, c, value, status), a, c);
  }

  lemma AcceptKeepsActs(s: State, a: Id, c: Id, value: int, status: int)
    requires At(s, a, InCallback(c, CbRegion(value, status))) && IsCurrent(s, c)
    ensures ActsOk(AcceptCallback(s, a, c, value, status))
  {
    assert ActOk(s, a) && RegOk(s, c);
    AcceptKeepsAct(s, a, c, value, status);
    OtherActs(s, AcceptCallback(s, a, c, value, status), a, c);
  }

  lemma AcceptKeepsAct(s: State, a: Id, c: Id, value: int, status: int)
    requires CoreAt(s, a, InCallback(c, CbRegion(value, status))) && RegOk(s, c) && IsCurrent(s, c)
    ensures ActOk(AcceptCallback(s, a, c, value, status), a)
  {
  }

  lemma StaleKeeps(s: State, a: Id, c: Id, value: int, status: int)
    requires At(s, a, InCallback(c, CbRegion(value, status))) && !IsCurrent(s, c)
    ensures Inv(AcceptCallback(s, a, c, value, status))
  {
    assert ActOk(s, a) && RegOk(s, c);
    assert s.await.context != Some(c) by { WinnerNotAhead(s, a); }
    GateMoves(s.acts, a, InCallback(c, CbExit));
    QuietGoto(s, a, InCallback(c, CbExit));
  }

  /** While a callback executes inside the gate no terminal request is between its CAS and its invalidation. */
  lemma WinnerNotAhead(s: State, a: Id)
    requires Inv(s) && a in s.acts && s.acts[a].pc.InCallback? && Busy(s.acts[a].pc)
    ensures !InvalidationAhead(WinnerPc(s))
    ensures s.await.registered ==> s.term.lifecycle == Active
  {
  }

  lemma ExitKeepsFrame(s: State, a: Id, c: Id)
    requires CoreAt(s, a, InCallback(c, CbExit)) && RegOk(s, c)
    ensures FrameOk(ExitCallback(s, a, c))
  {
    ReleaseLife(s.life, ContextOwner(c));
  }

  lemma ExitKeepsCore(s: State, a: Id, c: Id)
    requires CoreAt(s, a, InCallback(c, CbExit)) && RegOk(s, c) && s.nextAct !in s.acts
    ensures CoreOk(ExitCallback(s, a, c))
  {
    var s' := ExitCallback(s, a, c);
    ExitKeepsFrame(s, a, c);
    GateShrinks(s.acts, s'.acts);
    PollMoves(s.poll, s.acts, s'.acts, a, s.term.intent);
    AwaitMoves(s, s'.acts, a);
  }

  lemma ExitKeepsFutures(s: State, a: Id, c: Id)
    requires At(s, a, InCallback(c, CbExit))
    ensures FuturesOk(ExitCallback(s, a, c))
  {
    var s' := ExitCallback(s, a, c);
    assert ActOk(s, a);
    forall g | g in s'.futures ensures FutureOk(s'.regs, s'.term.completion, g, s'.futures[g]) {
      OtherFuture(s.regs, c, s'.regs[c], s.term.completion, g, s.futures[g]);
    }
  }

  lemma ExitKeepsRegs(s: State, a: Id, c: Id)
    requires CoreAt(s, a, InCallback(c, CbExit)) && RegsOk(s) && s.nextAct !in s.acts
    ensures RegsOk(ExitCallback(s, a, c))
  {
    assert RegOk(s, c);
    ExitKeepsReg(s, a, c);
    OtherRegs(s, ExitCallback(s, a, c), a, c);
  }

  lemma ExitKeepsReg(s: State, a: Id, c: Id)
    requires CoreAt(s, a, InCallback(c, CbExit)) && c in s.regs && RegOk(s, c) && s.nextAct !in s.acts
    ensures c in ExitCallback(s, a, c).regs && RegOk(ExitCallback(s, a, c), c)
  {
  }

  lemma ExitKeepsActs(s: State, a: Id, c: Id)
    requires CoreAt(s, a, InCallback(c, CbExit)) && ActsOk(s) && RegOk(s, c) && s.nextAct !in s.acts
    requires s.life.dtor.None? && forall b :: b in s.acts ==> !DtorPc(s.acts[b].pc)
    ensures ActsOk(ExitCallback(s, a, c))
  {
    ExitKeepsNew(s, a, c);
    OtherActs(s, ExitCallback(s, a, c), a, c);
  }

  lemma ExitKeepsNew(s: State, a: Id, c: Id)
    requires CoreAt(s, a, InCallback(c, CbExit)) && RegOk(s, c) && s.nextAct !in s.acts
    ensures var s' := ExitCallback(s, a, c); forall b :: b in s'.acts && (b == a || b !in s.acts) ==> ActOk(s', b)
  {
  }

  // ---------- settling and invoking ----------

  /** Where the activity that invokes registration `t` goes on. */
  ghost predicate Invokes(s: State, s1: State, a: Id, t: Id) {
    && a in s.acts && t in s.regs && s.regs[t].home in s.futures
    && s.futures[s.regs[t].home].future.settlement.Settled?
    && match s.acts[a].pc
       case InAwait(AwaitRegister(c)) => c == t && s1 == End(s, a)
       case InDeliver(f, pending, next) =>
         pending != [] && pending[0].token == t && f == s.regs[t].home
           && s1 == Goto(s, a, InDeliver(f, pending[1..], next))
       case _ => false
  }

  function InvokeState(s: State, s1: State, a: Id, t: Id): State
    requires a in s.acts && t in s1.regs && t in s.regs && s.regs[t].home in s.futures
    requires s.futures[s.regs[t].home].future.settlement.Settled?
  {
    Invoke(s1, s.acts[a].thread, t, s.futures[s.regs[t].home].future.settlement)
  }

  lemma InvokeClientKeepsCore(s: State, s1: State, a: Id, t: Id)
    requires CoreOk(s) && Invokes(s, s1, a, t) && ActOk(s, a) && RegOk(s, t) && s.nextAct !in s.acts
    requires !s.regs[t].isAwait
    ensures CoreOk(InvokeState(s, s1, a, t))
  {
    var s' := InvokeState(s, s1, a, t);
    FrameMoves(s, s', a);
    GateShrinks(s.acts, s'.acts);
    PollMoves(s.poll, s.acts, s'.acts, a, s.term.intent);
    AwaitMoves(s, s'.acts, a);
  }

  lemma DeliverAwaitKeepsCore(s: State, s1: State, a: Id, t: Id)
    requires CoreOk(s) && Invokes(s, s1, a, t) && ActOk(s, a) && RegOk(s, t) && s.nextAct !in s.acts
    requires s.regs[t].isAwait && s.acts[a].pc.InDeliver?
    ensures CoreOk(InvokeState(s, s1, a, t))
  {
    DeliverAwaitFrame(s, s1, a, t);
    DeliverAwaitShared(s, s1, a, t);
  }

  lemma DeliverAwaitFrame(s: State, s1: State, a: Id, t: Id)
    requires FrameOk(s) && Invokes(s, s1, a, t) && RegOk(s, t) && s.nextAct !in s.acts && s.regs[t].isAwait
    requires s.acts[a].pc.InDeliver?
    ensures FrameOk(InvokeState(s, s1, a, t))
  {
    FrameMoves(s, InvokeState(s, s1, a, t), a);
  }

  lemma DeliverAwaitShared(s: State, s1: State, a: Id, t: Id)
    requires CoreOk(s) && Invokes(s, s1, a, t) && ActOk(s, a) && RegOk(s, t) && s.nextAct !in s.acts
    requires s.regs[t].isAwait && s.acts[a].pc.InDeliver?
    ensures var s' := InvokeState(s, s1, a, t);
      GateOk(s'.acts) && AwaitOk(s'.await, s'.regs, s'.acts, s'.term.lifecycle, WinnerPc(s'))
        && PollOk(s'.poll, s'.acts, s'.term.intent)
  {
    var s' := InvokeState(s, s1, a, t);
    GateShrinks(s.acts, s'.acts);
    PollMoves(s.poll, s.acts, s'.acts, a, s.term.intent);
    AwaitMoves(s, s'.acts, a);
  }

  lemma SyncAwaitKeepsCore(s: State, s1: State, a: Id, t: Id)
    requires CoreOk(s) && Invokes(s, s1, a, t) && ActOk(s, a) && RegOk(s, t) && s.nextAct !in s.acts
    requires s.acts[a].pc.InAwait?
    ensures CoreOk(InvokeState(s, s1, a, t))
  {
    var s' := InvokeState(s, s1, a, t);
    FrameMoves(s, s', a);
    GateShrinks(s.acts, s'.acts);
    PollMoves(s.poll, s.acts, s'.acts, a, s.term.intent);
    AwaitMoves(s, s'.acts, a);
  }

  lemma InvokeKeepsFutures(s: State, s1: State, a: Id, t: Id)
    requires FuturesOk(s) && Invokes(s, s1, a, t) && ActOk(s, a) && RegOk(s, t)
    ensures FuturesOk(InvokeState(s, s1, a, t))
  {
    var s' := InvokeState(s, s1, a, t);
    forall g | g in s'.futures ensures FutureOk(s'.regs, s'.term.completion, g, s'.futures[g]) {
      OtherFuture(s.regs, t, s'.regs[t], s.term.completion, g, s.futures[g]);
    }
  }

  lemma InvokeKeepsRegs(s: State, s1: State, a: Id, t: Id)
    requires RegsOk(s) && Invokes(s, s1, a, t) && ActOk(s, a) && s.nextAct !in s.acts
    ensures RegsOk(InvokeState(s, s1, a, t))
  {
    InvokeKeepsReg(s, s1, a, t);
    OtherRegs(s, InvokeState(s, s1, a, t), a, t);
  }

  lemma InvokeKeepsReg(s: State, s1: State, a: Id, t: Id)
    requires Invokes(s, s1, a, t) && RegOk(s, t) && ActOk(s, a) && s.nextAct !in s.acts
    ensures RegOk(InvokeState(s, s1, a, t), t)
  {
  }

  lemma InvokeClientKeepsActs(s: State, s1: State, a: Id, t: Id)
    requires ActsOk(s) && Invokes(s, s1, a, t) && RegOk(s, t) && !s.regs[t].isAwait
    ensures ActsOk(InvokeState(s, s1, a, t))
  {
    var s' := InvokeState(s, s1, a, t);
    assert ActOk(s, a);
    OtherActs(s, s', a, t);
  }

  lemma DeliverAwaitSelf(s: State, s1: State, a: Id, t: Id)
    requires Invokes(s, s1, a, t) && ActOk(s, a) && RegOk(s, t) && s.regs[t].isAwait && s.acts[a].pc.InDeliver?
    requires s.nextAct !in s.acts
    requires PollOk(s.poll, s.acts, s.term.intent)
    ensures var s' := InvokeState(s, s1, a, t);
      a in s'.acts && s.nextAct in s'.acts && ActOk(s', a) && ActOk(s', s.nextAct)
  {
  }

  lemma DeliverAwaitKeepsActs(s: State, s1: State, a: Id, t: Id)
    requires ActsOk(s) && Invokes(s, s1, a, t) && RegOk(s, t) && s.regs[t].isAwait && s.acts[a].pc.InDeliver?
    requires PollOk(s.poll, s.acts, s.term.intent)
    ensures ActsOk(InvokeState(s, s1, a, t))
  {
    assert s.nextAct !in s.acts;
    assert ActOk(s, a);
    DeliverAwaitSelf(s, s1, a, t);
    OtherActs(s, InvokeState(s, s1, a, t), a, t);
  }

  lemma SyncAwaitKeepsActs(s: State, s1: State, a: Id, t: Id)
    requires ActsOk(s) && Invokes(s, s1, a, t) && RegOk(s, t) && s.acts[a].pc.InAwait?
    ensures ActsOk(InvokeState(s, s1, a, t))
  {
    var s' := InvokeState(s, s1, a, t);
    assert ActOk(s, a);
    OtherActs(s, s', a, t);
  }

  lemma DeliveredKeeps(s: State, a: Id, f: Id, next: AfterDeliver)
    requires At(s, a, InDeliver(f, [], next)) && !next.ToRelease?
    ensures Inv(DeliverNext(s, a, f, [], next))
  {
    assert ActOk(s, a);
    if next.ToClient? {
      DeliveredReturns(s, a, f);
    } else {
      GateMoves(s.acts, a, InTerminal(next.kind, TermPublish));
      QuietGoto(s, a, InTerminal(next.kind, TermPublish));
    }
  }

  lemma DeliveredReturns(s: State, a: Id, f: Id)
    requires At(s, a, InDeliver(f, [], ToClient))
    ensures Inv(End(s, a))
  {
    EndKeeps(s, a);
  }

  lemma DtorDeliveredKeeps(s: State, a: Id, f: Id)
    requires At(s, a, InDeliver(f, [], ToRelease))
    ensures Inv(Goto(s, a, InDtor(DtorRelease)))
  {
    DtorAlone(s, a);
    assert ActOk(s, a);
    GateMoves(s.acts, a, InDtor(DtorRelease));
    QuietGoto(s, a, InDtor(DtorRelease));
  }

  /** What a call to finish_future may be part of. */
  ghost predicate Settles(s: State, a: Id, f: Id, settlement: Settlement, next: AfterDeliver) {
    && a in s.acts && f in s.futures
    && match s.acts[a].pc
       case InFinish(g, value) => g == f && value == settlement && next == ToClient && settlement.Settled?
       case InTerminal(kind, TermSettle) =>
         f == s.term.completion && settlement == SettlementOf(kind) && next == ToPublish(kind)
       case InDtor(DtorSettle) => f == s.term.completion && settlement == Settled(0, true) && next == ToRelease
       case _ => false
  }

  lemma SettleKeepsCore(s: State, a: Id, f: Id, settlement: Settlement, next: AfterDeliver)
    requires CoreOk(s) && Settles(s, a, f, settlement, next) && ActOk(s, a)
    ensures CoreOk(SettleBy(s, a, f, settlement, next))
  {
    var s' := SettleBy(s, a, f, settlement, next);
    GateMoves(s.acts, a, s'.acts[a].pc);
    PollMoves(s.poll, s.acts, s'.acts, a, s.term.intent);
    SettleKeepsAwait(s, a, f, settlement, next);
    SettleKeepsFrame(s, a, f, settlement, next);
  }

  lemma SettleKeepsAwait(s: State, a: Id, f: Id, settlement: Settlement, next: AfterDeliver)
    requires CoreOk(s) && Settles(s, a, f, settlement, next) && ActOk(s, a)
    ensures var s' := SettleBy(s, a, f, settlement, next);
      AwaitOk(s'.await, s'.regs, s'.acts, s'.term.lifecycle, WinnerPc(s'))
  {
    AwaitMoves(s, SettleBy(s, a, f, settlement, next).acts, a);
  }

  lemma SettleKeepsFrame(s: State, a: Id, f: Id, settlement: Settlement, next: AfterDeliver)
    requires CoreOk(s) && Settles(s, a, f, settlement, next) && ActOk(s, a)
    ensures FrameOk(SettleBy(s, a, f, settlement, next))
  {
  }

  lemma SettleKeepsFutures(s: State, a: Id, f: Id, settlement: Settlement, next: AfterDeliver)
    requires FuturesOk(s) && Settles(s, a, f, settlement, next)
    ensures FuturesOk(SettleBy(s, a, f, settlement, next))
  {
    var s' := SettleBy(s, a, f, settlement, next);
    forall g | g in s'.futures ensures FutureOk(s'.regs, s'.term.completion, g, s'.futures[g]) {
      assert FutureOk(s.regs, s.term.completion, g, s.futures[g]);
      assert FutureOk(s.regs, s.term.completion, f, s.futures[f]);
    }
  }

  lemma SettleKeepsReg(s: State, a: Id, f: Id, settlement: Settlement, next: AfterDeliver, u: Id)
    requires Settles(s, a, f, settlement, next) && u in s.regs && RegOk(s, u)
    requires FutureOk(s.regs, s.term.completion, f, s.futures[f])
    ensures RegOk(SettleBy(s, a, f, settlement, next), u)
  {
  }

  lemma SettleKeepsActRegs(regs: map<Id, Registration>, completion: Id, f: Id, cell: FutureCell, a: Id, b: Id, pc: Pc)
    requires FutureOk(regs, completion, f, cell) && ActRegs(regs, b, pc)
    ensures ActRegs(Claim(regs, Tokens(cell.future.continuations), a), b, pc)
  {
  }

  lemma SettleKeepsOther(s: State, a: Id, f: Id, settlement: Settlement, next: AfterDeliver, b: Id)
    requires Settles(s, a, f, settlement, next) && b in s.acts && b != a && ActOk(s, b)
    requires FutureOk(s.regs, s.term.completion, f, s.futures[f]) && PollOk(s.poll, s.acts, s.term.intent)
    requires next.ToPublish? ==> SoleTerminal(s, a)
    ensures ActOk(SettleBy(s, a, f, settlement, next), b)
  {
    var s' := SettleBy(s, a, f, settlement, next);
    if s.futures[f].future.settlement.Pending? {
      SettleKeepsActRegs(s.regs, s.term.completion, f, s.futures[f], a, b, s.acts[b].pc);
    } else {
      assert s'.regs == s.regs;
    }
  }

  lemma SettleKeepsSelf(s: State, a: Id, f: Id, settlement: Settlement, next: AfterDeliver)
    requires Settles(s, a, f, settlement, next) && ActOk(s, a)
    requires FuturesOk(s) && RegsOk(s)
    ensures ActOk(SettleBy(s, a, f, settlement, next), a)
  {
    assert FutureOk(s.regs, s.term.completion, f, s.futures[f]);
  }

  // ---------- client steps on futures ----------

  lemma ThenKeepsCore(s: State, f: Id)
    requires Inv(s) && f in s.futures
    ensures CoreOk(ThenRegister(s, f))
  {
  }

  lemma ThenKeepsFutures(s: State, f: Id)
    requires Inv(s) && f in s.futures
    ensures FuturesOk(ThenRegister(s, f))
  {
    var s', t := ThenRegister(s, f), s.nextReg;
    forall g | g in s'.futures ensures FutureOk(s'.regs, s'.term.completion, g, s'.futures[g]) {
      OtherFuture(s.regs, t, s'.regs[t], s.term.completion, g, s.futures[g]);
    }
  }

  lemma ThenKeepsRegs(s: State, f: Id)
    requires Inv(s) && f in s.futures
    ensures RegsOk(ThenRegister(s, f))
  {
    assert FutureOk(s.regs, s.term.completion, f, s.futures[f]);
    OtherRegs(s, ThenRegister(s, f), s.nextAct, s.nextReg);
  }

  lemma ThenKeepsActs(s: State, f: Id)
    requires Inv(s) && f in s.futures
    ensures ActsOk(ThenRegister(s, f))
  {
    assert FutureOk(s.regs, s.term.completion, f, s.futures[f]);
    OtherActs(s, ThenRegister(s, f), s.nextAct, s.nextReg);
  }

  /** Clients create futures and take or drop references of their own. */
  ghost predicate ClientUpdate(s: State, f: Id, cell: FutureCell) {
    && cell.references == |cell.holders|
    && cell.future == (if f in s.futures then s.futures[f].future else FreshFuture)
    && forall h: Holder :: !h.ClientHolder? ==> (h in cell.holders <==> f in s.futures && h in s.futures[f].holders)
  }

  lemma ClientKeepsFutures(s: State, f: Id, cell: FutureCell)
    requires FuturesOk(s) && ClientUpdate(s, f, cell)
    ensures FuturesOk(s.(futures := s.futures[f := cell]))
  {
    var s' := s.(futures := s.futures[f := cell]);
    forall g | g in s'.futures ensures FutureOk(s'.regs, s'.term.completion, g, s'.futures[g]) {
      if g in s.futures { assert FutureOk(s.regs, s.term.completion, g, s.futures[g]); }
    }
  }

  lemma ClientKeeps(s: State, f: Id, cell: FutureCell)
    requires Inv(s) && ClientUpdate(s, f, cell)
    ensures Inv(s.(futures := s.futures[f := cell]))
  {
    assert s.nextAct !in s.acts && s.nextReg !in s.regs;
    ClientKeepsFutures(s, f, cell);
    ClientKeepsRegs(s, f, cell);
    ClientKeepsActs(s, f, cell);
  }

  lemma ClientKeepsRegs(s: State, f: Id, cell: FutureCell)
    requires CoreOk(s) && RegsOk(s) && ClientUpdate(s, f, cell) && s.nextAct !in s.acts
    ensures RegsOk(s.(futures := s.futures[f := cell]))
  {
    OtherRegs(s, s.(futures := s.futures[f := cell]), s.nextAct, s.nextReg);
  }

  lemma ClientKeepsActs(s: State, f: Id, cell: FutureCell)
    requires CoreOk(s) && ActsOk(s) && ClientUpdate(s, f, cell) && s.nextAct !in s.acts && s.nextReg !in s.regs
    ensures ActsOk(s.(futures := s.futures[f := cell]))
  {
    OtherActs(s, s.(futures := s.futures[f := cell]), s.nextAct, s.nextReg);
  }
}
