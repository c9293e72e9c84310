/**
 The inductive invariant of the async protocol.

 Each clause is a predicate over just the parts of the state it speaks about, so that a step
 which leaves those parts alone keeps the clause at once.
 */
module AsyncInvariant {
  import opened Basics
  import opened Futures
  import opened AsyncProtocol

  function PcOf(acts: map<Id, Activity>, a: Id): Option<Pc> {
    if a in acts then Some(acts[a].pc) else None
  }

  function InProgress(kind: Terminal): Lifecycle {
    if kind.Complete? then Completing else Cancelling
  }

  function Final(kind: Terminal): Lifecycle {
    if kind.Complete? then Completed else Cancelled
  }

  /** Poll gate: all activities inside it belong to one thread and at most one of them is executing. */
  ghost predicate GateOk(acts: map<Id, Activity>) {
    forall a, b :: a in acts && b in acts && HoldsGate(acts[a].pc) && HoldsGate(acts[b].pc) ==>
      acts[a].thread == acts[b].thread && (a != b ==> !Busy(acts[a].pc) || !Busy(acts[b].pc))
  }

  // ---------- activities ----------

  /** Names are fresh and the futures an activity names exist. */
  ghost predicate ActNames(futures: set<Id>, nextAct: Id, a: Id, pc: Pc) {
    && 0 <= a < nextAct
    && match pc
       case InAwait(step) =>
         step.AwaitEnter? || step.AwaitProbe? || step.AwaitCheck? || step.AwaitArm? ==> step.fut in futures
       case InInvalidate(after, _) => after.ToArm? ==> after.fut in futures
       case InFinish(f, settlement) => f in futures && settlement.Settled?
       case _ => true
  }

  /** Whoever uses the frame is covered by the open handle, a running pass, or its own reference. */
  ghost predicate ActAlive(life: Life, passRunning: bool, poller: Option<Id>, a: Id, act: Activity) {
    && (Unguarded(act.pc) && !act.viaPass ==> HandleOwner in life.owners)
    && (act.viaPass ==> passRunning)
    && (Guarded(act.pc) ==> GuardOwner(a) in life.owners)
    && (DtorPc(act.pc) ==> life.dtor == Some(a))
    && (LoopPc(act.pc) ==> poller == Some(a))
  }

  /** Once invalidated and until it is armed again, the frame has no registered await. */
  ghost predicate ActCleared(registered: bool, pc: Pc) {
    (pc.InInvalidate? && !pc.inv.InvRegion?) || (pc.InAwait? && pc.await.AwaitArm?) ==> !registered
  }

  /** The winner is past the completion future. */
  predicate Settling(pc: Pc) {
    pc.InDeliver? || (pc.InTerminal? && (pc.term.TermPublish? || pc.term.TermUnguard?))
  }

  /** The winner of the intent, and how far it has taken the lifecycle and the completion future. */
  ghost predicate ActTerminal(term: Term, completion: Option<FutureCell>, a: Id, pc: Pc) {
    && (Winning(pc).Some? ==>
         var kind := Winning(pc).value;
         && term.winner == Some(a)
         && term.intent == IntentOf(kind)
         && term.lifecycle == (if pc.InTerminal? && (pc.term.TermEnter? || pc.term.TermCas?) then Active
                               else if pc.InTerminal? && pc.term.TermUnguard? then Final(kind) else InProgress(kind))
         && (Guarded(pc) && pc != InTerminal(kind, TermStore) && kind.Complete? ==> term.result == kind.value)
         && (if Settling(pc) then completion.Some? && completion.value.future.settlement.Settled? else !term.byWinner))
    && (DtorPc(pc) ==>
         && completion.Some? && CompletionHolder in completion.value.holders
         && (pc != InDtor(DtorStore) ==> term.lifecycle == Destroying))
  }

  ghost predicate IsAwait(regs: map<Id, Registration>, c: Id) {
    c in regs && regs[c].isAwait
  }

  /** The registrations an activity is responsible for. */
  ghost predicate ActRegs(regs: map<Id, Registration>, a: Id, pc: Pc) {
    && (RetainedContext(pc).Some? ==>
         var c := RetainedContext(pc).value; IsAwait(regs, c) && regs[c].retain == ByActivity(a))
    && match pc
       case InAwait(AwaitRegister(c)) => IsAwait(regs, c) && regs[c].place == Registering(a)
       case InAwait(AwaitToken(c, id)) => id > 0 && IsAwait(regs, c) && regs[c].id == id
       case InInvalidate(_, InvRemove(f, c, id)) =>
         && regs[c].home == f
         && (id != 0 ==> regs[c].id == id)
         && !regs[c].place.Detaching? && !regs[c].place.Detached?
       case InInvalidate(_, InvDrop(f, c, t)) => t == c && regs[c].home == f && regs[c].place == Detaching(a)
       case InInvalidate(_, InvRelease(f, c)) => regs[c].home == f
       case InCallback(c, step) =>
         && IsAwait(regs, c) && regs[c].place == Calling(a)
         && (step.CbEnter? || step.CbRegion? ==>
              regs[c].call.Settled? && step.value == regs[c].call.value && step.status == StatusOf(regs[c].call))
       case InDeliver(f, pending, _) => Pending(regs, a, f, pending)
       case _ => true
  }

  /** The claimed list of a finish_future call: registrations of `f`, owned by `a`, each once. */
  ghost predicate Pending(regs: map<Id, Registration>, a: Id, f: Id, pending: seq<Entry>) {
    && (forall i :: 0 <= i < |pending| ==>
         pending[i].token in regs && regs[pending[i].token].place == Claimed(a) && regs[pending[i].token].home == f)
    && (forall i, j :: 0 <= i < j < |pending| ==> pending[i].token != pending[j].token)
  }

  // ---------- registrations ----------

  predicate Consumed(place: Place) {
    place.Called? || place.Detached?
  }

  function PlaceAct(place: Place): Id {
    match place
    case Registering(a) => a
    case Claimed(a) => a
    case Calling(a) => a
    case Detaching(a) => a
    case _ => -1
  }

  /** A registration is where its place says, and is called only with its future's settlement. */
  ghost predicate RegPlace(home: Future, pc: Option<Pc>, t: Id, r: Registration) {
    && (r.call.Settled? <==> r.place.Calling? || r.place.Called?)
    && (r.call.Settled? ==> home.settlement == r.call)
    && match r.place
       case Registering(_) => pc == Some(InAwait(AwaitRegister(t))) && r.id == 0
       case Queued => Entry(r.id, t) in home.continuations
       case Claimed(_) =>
         && home.settlement.Settled?
         && pc.Some? && pc.value.InDeliver? && pc.value.fut == r.home && t in Tokens(pc.value.pending)
       case Calling(_) => pc.Some? && pc.value.InCallback? && pc.value.ctx == t
       case Detaching(_) => pc.Some? && pc.value.InInvalidate? && pc.value.inv.InvDrop? && pc.value.inv.dropped == t
       case _ => true
  }

  /** An await context owns one frame reference until consumed and one future reference until released. */
  ghost predicate RegOwns(owners: set<Owner>, holders: set<Holder>, await: Await, retainer: Option<Pc>, t: Id,
          r: Registration) {
    if r.isAwait then
      && (!Consumed(r.place) ==> ContextOwner(t) in owners)
      && (r.retain.ByFrame? <==> await.context == Some(t))
      && (r.retain.ByActivity? ==> retainer.Some? && RetainedContext(retainer.value) == Some(t))
      && (!r.retain.Released? ==> AwaitHolder(t) in holders)
      && r.generation <= await.generation
      && (await.registered && await.context != Some(t) ==> r.generation < await.generation)
    else r.place.Queued? || r.place.Claimed? || r.place.Called?
  }

  ghost predicate RegOk(s: State, t: Id)
    requires t in s.regs
  {
    var r := s.regs[t];
    && t < s.nextReg
    && r.home in s.futures
    && RegPlace(s.futures[r.home].future, PcOf(s.acts, PlaceAct(r.place)), t, r)
    && RegOwns(s.life.owners, s.futures[r.home].holders, s.await,
               if r.retain.ByActivity? then PcOf(s.acts, r.retain.act) else None, t, r)
  }

  // ---------- futures ----------

  ghost predicate FutureOk(regs: map<Id, Registration>, completion: Id, f: Id, cell: FutureCell) {
    && WellFormed(cell.future)
    && (forall i :: 0 <= i < |cell.future.continuations| ==>
         var e := cell.future.continuations[i];
         e.token in regs && regs[e.token].home == f && regs[e.token].place == Queued && regs[e.token].id == e.id)
    && cell.references == |cell.holders|
    && (forall c :: AwaitHolder(c) in cell.holders ==>
         IsAwait(regs, c) && regs[c].home == f && !regs[c].retain.Released?)
    && (CompletionHolder in cell.holders ==> f == completion)
  }

  // ---------- the frame ----------

  ghost predicate LifeOk(life: Life, regs: map<Id, Registration>, acts: map<Id, Activity>, nextAct: Id) {
    && 0 <= nextAct
    && life.references == |life.owners|
    && (life.dtor.Some? <==> life.owners == {})
    && (forall c :: ContextOwner(c) in life.owners ==> IsAwait(regs, c) && !Consumed(regs[c].place))
    && (forall a :: GuardOwner(a) in life.owners ==> a in acts && Guarded(acts[a].pc))
    && (life.dtor.Some? ==> life.dtor.value < nextAct)
  }

  ghost predicate TermOk(term: Term, winner: Option<Pc>, dtor: Option<Id>, completion: FutureCell, nextAct: Id) {
    && (dtor.None? ==> CompletionHolder in completion.holders)
    && (term.winner.None? <==> term.intent == NoIntent)
    && (term.winner.None? ==> !term.byWinner && (term.lifecycle.Active? || term.lifecycle.Destroying?))
    && (term.winner.Some? ==>
         && term.winner.value < nextAct
         && if winner.Some? then Winning(winner.value).Some?
            else
              term.lifecycle.Destroying?
                || term.lifecycle == (if term.intent.CompleteIntent? then Completed else Cancelled))
    && (term.lifecycle.Destroying? ==> dtor.Some?)
    && (term.lifecycle.Completed? ==> term.intent.CompleteIntent?)
    && (term.lifecycle.Cancelled? ==> term.intent.CancelIntent?)
    && (term.lifecycle.Completed? || term.lifecycle.Cancelled? ==> completion.future.settlement.Settled?)
    && (term.byWinner ==>
         completion.future.settlement == if term.intent.CompleteIntent? then Settled(term.result, false)
           else Settled(0, true))
  }

  function WinnerPc(s: State): Option<Pc> {
    if s.term.winner.Some? then PcOf(s.acts, s.term.winner.value) else None
  }

  /** Between winning the lifecycle and the invalidation an old registration may still be there. */
  predicate InvalidationAhead(winner: Option<Pc>) {
    winner.Some? && match winner.value
                    case InTerminal(_, step) => step.TermGuard? || step.TermStore?
                    case InInvalidate(_, step) => step.InvRegion?
                    case _ => false
  }

  ghost predicate AwaitOk(await: Await, regs: map<Id, Registration>, acts: map<Id, Activity>, lifecycle: Lifecycle,
          winner: Option<Pc>) {
    && (await.registered <==> await.awaited.Some?)
    && (await.registered <==> await.context.Some?)
    && (!await.registered ==> await.continuationId == 0)
    && (await.registered ==>
         var c := await.context.value;
         && IsAwait(regs, c)
         && await.awaited == Some(regs[c].home)
         && await.resume == regs[c].resume
         && await.generation == regs[c].generation
         && (await.continuationId != 0 ==> regs[c].id == await.continuationId)
         && !regs[c].place.Detaching? && !Consumed(regs[c].place)
         && (regs[c].place.Calling? ==>
              var pc := PcOf(acts, regs[c].place.act);
              pc.Some? && pc.value.InCallback? && (pc.value.cb.CbEnter? || pc.value.cb.CbRegion?))
         && (!lifecycle.Active? ==> InvalidationAhead(winner)))
  }

  ghost predicate PollOk(poll: Poll, acts: map<Id, Activity>, intent: Intent) {
    && (poll.running <==> poll.poller.Some?)
    && (poll.poller.Some? ==> poll.poller.value in acts && LoopPc(acts[poll.poller.value].pc))
    && (poll.owed.Some? ==>
         || intent != NoIntent
         || (poll.running && poll.requested)
         || var pc := PcOf(acts, poll.owed.value);
            pc.Some? && pc.value.InCallback? && (pc.value.cb.CbReleaseFuture? || pc.value.cb.CbRequest?))
  }

  // ---------- the whole invariant ----------

  ghost predicate FrameOk(s: State) {
    && LifeOk(s.life, s.regs, s.acts, s.nextAct)
    && s.term.completion in s.futures
    && TermOk(s.term, WinnerPc(s), s.life.dtor, s.futures[s.term.completion], s.nextAct)
  }

  ghost predicate CoreOk(s: State) {
    && GateOk(s.acts)
    && FrameOk(s)
    && AwaitOk(s.await, s.regs, s.acts, s.term.lifecycle, WinnerPc(s))
    && PollOk(s.poll, s.acts, s.term.intent)
  }

  ghost predicate FuturesOk(s: State) {
    forall f :: f in s.futures ==> FutureOk(s.regs, s.term.completion, f, s.futures[f])
  }

  ghost predicate RegsOk(s: State) {
    forall t :: t in s.regs ==> RegOk(s, t)
  }

  function CompletionCell(s: State): Option<FutureCell> {
    if s.term.completion in s.futures then Some(s.futures[s.term.completion]) else None
  }

  ghost predicate ActOk(s: State, a: Id)
    requires a in s.acts
  {
    && ActNames(s.futures.Keys, s.nextAct, a, s.acts[a].pc)
    && ActAlive(s.life, MayUseFrame(s, true), s.poll.poller, a, s.acts[a])
    && ActCleared(s.await.registered, s.acts[a].pc)
    && ActTerminal(s.term, CompletionCell(s), a, s.acts[a].pc)
    && ActRegs(s.regs, a, s.acts[a].pc)
  }

  ghost predicate ActsOk(s: State) {
    forall a :: a in s.acts ==> ActOk(s, a)
  }

  ghost predicate Inv(s: State) {
    CoreOk(s) && FuturesOk(s) && RegsOk(s) && ActsOk(s)
  }

  lemma InitialHolds(completion: Id)
    ensures Inv(Initial(completion))
  {
  }
}
