/**
 The await, completion and cancellation protocol of an async frame, as a step system.

 One frame, any number of futures, any number of threads. An activity is one runtime call that
 is under way; its program counter `pc` names the next lock-protected region or atomic operation
 it will perform, and one step performs exactly that. Every interleaving of activities is a run.
 A callback that the source invokes synchronously becomes an activity of the same thread which
 the caller does not wait for, so the runs here include all runs of the source and more.

 History fields record who owns each reference and where each registration is; no step reads
 them to decide what the runtime does. They are `owners`, `dtor`, `winner`, `byWinner`, `poller`,
 `owed`, `holders`, and every field of `Registration` other than `home`, `resume`, `generation`.
 */
module AsyncProtocol {
  import opened Basics
  import opened Futures

  /** Names of futures, activities and registrations. */
  type Id = int

  datatype Lifecycle = Active | Completing | Cancelling | Completed | Cancelled | Destroying
  datatype Intent = NoIntent | CompleteIntent | CancelIntent
  datatype Terminal = Complete(value: int) | Cancel

  // ---------- state ----------

  datatype Owner = HandleOwner | ContextOwner(ctx: Id) | GuardOwner(act: Id)
  datatype Holder = ClientHolder(k: Id) | AwaitHolder(ctx: Id) | CompletionHolder

  /** Where a registration is: exactly one of these at any time. */
  datatype Place =
    | Registering(act: Id)
    | Queued
    | Claimed(act: Id)
    | Calling(act: Id)
    | Detaching(act: Id)
    | Detached
    | Called

  /** Who must release the future reference an await took. */
  datatype Retain = ByFrame | ByActivity(act: Id) | Released

  /** One continuation registration. Await contexts carry `resume` and `generation`. */
  datatype Registration = Registration(
    home: Id, isAwait: bool, resume: int, generation: int,
    id: int, place: Place, call: Settlement, retain: Retain)

  datatype FutureCell = FutureCell(future: Future, references: int, holders: set<Holder>)

  datatype Life = Life(references: int, owners: set<Owner>, dtor: Option<Id>)

  datatype Term = Term(lifecycle: Lifecycle, intent: Intent, result: int, completion: Id,
                       winner: Option<Id>, byWinner: bool)

  datatype Poll = Poll(running: bool, requested: bool, poller: Option<Id>, owed: Option<Id>)

  datatype Await = Await(registered: bool, awaited: Option<Id>, context: Option<Id>, resume: int,
                         generation: int, continuationId: int)

  /** What the poller reads: its resume state, the cancellation flag and the last await outcome. */
  datatype Published = Published(state: int, cancelled: bool, result: int, status: int)

  /** Where an activity goes once invalidate_async_await returns. */
  datatype AfterInvalidate =
    | ToReady(resume: int, value: int, status: int)
    | ToArm(fut: Id, armResume: int)
    | ToSettle(kind: Terminal)

  /** Where an activity goes once every claimed continuation has been invoked. */
  datatype AfterDeliver = ToClient | ToPublish(kind: Terminal) | ToRelease

  /** raz_rt_async_await_poll. */
  datatype AwaitStep =
    | AwaitEnter(fut: Id, resume: int)
    | AwaitProbe(fut: Id, resume: int)
    | AwaitCheck(fut: Id, resume: int)
    | AwaitPublish(resume: int, value: int, status: int)
    | AwaitArm(fut: Id, resume: int)
    | AwaitRegister(ctx: Id)
    | AwaitToken(ctx: Id, id: int)

  /** invalidate_async_await. */
  datatype InvStep =
    | InvRegion
    | InvRemove(fut: Id, saved: Id, id: int)
    | InvDrop(fut: Id, saved: Id, dropped: Id)
    | InvRelease(fut: Id, saved: Id)

  /** raz_rt_async_result_store and raz_rt_async_frame_cancel. */
  datatype TermStep = TermClaim | TermEnter | TermCas | TermGuard | TermStore | TermSettle | TermPublish | TermUnguard

  /** async_await_continuation and request_async_poll. */
  datatype CbStep =
    | CbEnter(value: int, status: int)
    | CbRegion(value: int, status: int)
    | CbReleaseFuture
    | CbRequest
    | LoopCheck(passes: int)
    | InPass(passes: int)
    | LoopYield
    | CbExit

  /** ~RazAsyncFrame. */
  datatype DtorStep = DtorStore | DtorAwaited | DtorSettle | DtorRelease

  datatype Pc =
    | InAwait(await: AwaitStep)
    | InInvalidate(after: AfterInvalidate, inv: InvStep)
    | InTerminal(kind: Terminal, term: TermStep)
    | InFinish(fut: Id, settlement: Settlement)
    | InDeliver(fut: Id, pending: seq<Entry>, next: AfterDeliver)
    | InCallback(ctx: Id, cb: CbStep)
    | InDtor(dtor: DtorStep)

  /** `viaPass` marks calls made by the code of a running poll pass; the others use the handle. */
  datatype Activity = Activity(thread: int, viaPass: bool, pc: Pc)

  datatype State = State(
    futures: map<Id, FutureCell>,
    regs: map<Id, Registration>,
    acts: map<Id, Activity>,
    nextAct: Id,
    nextReg: Id,
    life: Life,
    term: Term,
    poll: Poll,
    await: Await,
    published: Published)

  // ---------- what a program counter says about its activity ----------

  /** The activity owns (one level of) the recursive poll gate. */
  predicate HoldsGate(pc: Pc) {
    match pc
    case InAwait(step) => !step.AwaitEnter?
    case InInvalidate(_, _) => true
    case InTerminal(_, step) => !step.TermClaim? && !step.TermEnter?
    case InFinish(_, _) => false
    case InDeliver(_, _, next) => next.ToPublish?
    case InCallback(_, step) => !step.CbEnter? && !step.LoopYield? && !step.CbExit?
    case InDtor(_) => false
  }

  /** Inside the gate and executing, not waiting for a callback that it invoked. */
  predicate Busy(pc: Pc) {
    HoldsGate(pc) && !pc.InDeliver? && !(pc.InCallback? && pc.cb.InPass?)
  }

  /** The terminal request this activity is carrying out, once it has won the intent. */
  function Winning(pc: Pc): Option<Terminal> {
    match pc
    case InTerminal(kind, step) => if step.TermClaim? then None else Some(kind)
    case InInvalidate(after, _) => if after.ToSettle? then Some(after.kind) else None
    case InDeliver(_, _, next) => if next.ToPublish? then Some(next.kind) else None
    case _ => None
  }

  /** The publication guard exists: RazAsyncFrameRetainGuard is constructed and not yet destroyed. */
  predicate Guarded(pc: Pc) {
    Winning(pc).Some? && (pc.InTerminal? ==> !pc.term.TermEnter? && !pc.term.TermCas? && !pc.term.TermGuard?)
  }

  /** The call still relies on its caller to keep the frame alive. */
  predicate Unguarded(pc: Pc) {
    match pc
    case InAwait(_) => true
    case InInvalidate(after, _) => !after.ToSettle?
    case InTerminal(_, step) => step.TermClaim? || step.TermEnter? || step.TermCas? || step.TermGuard?
    case _ => false
  }

  predicate LoopPc(pc: Pc) {
    pc.InCallback? && (pc.cb.LoopCheck? || pc.cb.InPass? || pc.cb.LoopYield?)
  }

  predicate PassPc(pc: Pc) {
    pc.InCallback? && pc.cb.InPass?
  }

  /** The await whose future reference this activity must still release. */
  function RetainedContext(pc: Pc): Option<Id> {
    match pc
    case InInvalidate(_, step) => if step.InvRegion? then None else Some(step.saved)
    case InCallback(c, step) => if step.CbReleaseFuture? then Some(c) else None
    case _ => None
  }

  predicate DtorPc(pc: Pc) {
    pc.InDtor? || (pc.InDeliver? && pc.next.ToRelease?)
  }

  function IntentOf(kind: Terminal): Intent {
    if kind.Complete? then CompleteIntent else CancelIntent
  }

  /** raz_rt_future_complete_i64(completion, value) or raz_rt_future_cancel(completion). */
  function SettlementOf(kind: Terminal): Settlement {
    match kind
    case Complete(value) => Settled(value, false)
    case Cancel => Settled(0, true)
  }

  // ---------- elementary updates ----------

  /** The recursive gate is open to this thread: whatever is inside it waits, in this thread, for a callback. */
  predicate GateFree(s: State, thread: int) {
    forall b :: b in s.acts && HoldsGate(s.acts[b].pc) ==> s.acts[b].thread == thread && !Busy(s.acts[b].pc)
  }

  /** Control is back: the callbacks this thread was running have left the gate. */
  predicate Resumable(s: State, a: Id) {
    forall b :: b in s.acts && b != a ==> !Busy(s.acts[b].pc)
  }

  function Goto(s: State, a: Id, pc: Pc): State
    requires a in s.acts
  {
    s.(acts := s.acts[a := s.acts[a].(pc := pc)])
  }

  function End(s: State, a: Id): State {
    s.(acts := s.acts - {a})
  }

  function Spawn(s: State, act: Activity): State {
    s.(acts := s.acts[s.nextAct := act], nextAct := s.nextAct + 1)
  }

  /** retain_async_frame. */
  function RetainFrame(s: State, owner: Owner): State {
    s.(life := s.life.(references := s.life.references + 1, owners := s.life.owners + {owner}))
  }

  /** release_async_frame: dropping the last reference starts the destructor. */
  function ReleaseFrame(s: State, owner: Owner, thread: int): State {
    var life := s.life.(references := s.life.references - 1, owners := s.life.owners - {owner});
    if s.life.references == 1 then
      Spawn(s.(life := life.(dtor := Some(s.nextAct))), Activity(thread, false, InDtor(DtorStore)))
    else s.(life := life)
  }

  /** retain_future. */
  function Hold(cell: FutureCell, holder: Holder): FutureCell {
    cell.(references := cell.references + 1, holders := cell.holders + {holder})
  }

  /** release_future: only the reference count; waiting and deletion are not modelled. */
  function Unhold(cell: FutureCell, holder: Holder): FutureCell {
    cell.(references := cell.references - 1, holders := cell.holders - {holder})
  }

  function SetFuture(s: State, f: Id, future: Future): State
    requires f in s.futures
  {
    s.(futures := s.futures[f := s.futures[f].(future := future)])
  }

  function Move(s: State, t: Id, place: Place): State
    requires t in s.regs
  {
    s.(regs := s.regs[t := s.regs[t].(place := place)])
  }

  function Tokens(entries: seq<Entry>): set<Id> {
    set i | 0 <= i < |entries| :: entries[i].token
  }

  function Claim(regs: map<Id, Registration>, taken: set<Id>, a: Id): map<Id, Registration> {
    map t | t in regs :: if t in taken then regs[t].(place := Claimed(a)) else regs[t]
  }

  /** The lock region of finish_future, run by activity `a`, which then owns what it claimed. */
  function SettleBy(s: State, a: Id, f: Id, settlement: Settlement, next: AfterDeliver): State
    requires a in s.acts && f in s.futures && settlement.Settled?
  {
    var region := FinishRegion(s.futures[f].future, settlement.value, settlement.cancelled);
    var s1 := SetFuture(s, f, region.0);
    var s2 := s1.(regs := Claim(s.regs, Tokens(region.2), a),
                  term := s.term.(byWinner := s.term.byWinner || (region.1 && next.ToPublish?)));
    Goto(s2, a, InDeliver(f, region.2, next))
  }

  /** Starts the synchronous callback of one registration. */
  function Invoke(s: State, thread: int, t: Id, settlement: Settlement): State
    requires settlement.Settled? && t in s.regs
  {
    var called := s.(regs := s.regs[t := s.regs[t].(call := settlement)]);
    if s.regs[t].isAwait then
      Spawn(Move(called, t, Calling(s.nextAct)),
            Activity(thread, false, InCallback(t, CbEnter(settlement.value, StatusOf(settlement)))))
    else Move(called, t, Called)
  }

  // ---------- raz_rt_async_await_poll ----------

  function ProbeAwait(s: State, a: Id, f: Id, resume: int): State
    requires a in s.acts && f in s.futures
  {
    if s.term.lifecycle != Active then End(s, a)
    else match s.futures[f].future.settlement
      case Pending => Goto(s, a, InAwait(AwaitCheck(f, resume)))
      case Settled(v, cancelled) =>
        Goto(s, a, InInvalidate(ToReady(resume, if cancelled then 0 else v, if cancelled then -1 else 1), InvRegion))
  }

  function CheckAwait(s: State, a: Id, f: Id, resume: int): State
    requires a in s.acts
  {
    if s.term.lifecycle != Active then End(s, a)
    else if s.await.registered && s.await.awaited == Some(f) && s.await.resume == resume then End(s, a)
    else Goto(s, a, InInvalidate(ToArm(f, resume), InvRegion))
  }

  function PublishReady(s: State, a: Id, resume: int, value: int, status: int): State {
    End(s.(published := Published(resume, s.published.cancelled || status < 0, value, status)), a)
  }

  /** Takes one reference to the future and one to the frame for a new await context. */
  function ArmAwait(s: State, a: Id, f: Id, resume: int): State
    requires a in s.acts && f in s.futures
  {
    if s.term.lifecycle != Active then End(s, a)
    else
      var c := s.nextReg;
      var generation := s.await.generation + 1;
      var armed := s.(
        await := s.await.(registered := true, awaited := Some(f), context := Some(c), resume := resume,
                          generation := generation),
        published := s.published.(status := 0),
        nextReg := c + 1,
        regs := s.regs[c := Registration(f, true, resume, generation, 0, Registering(a), Pending, ByFrame)],
        futures := s.futures[f := Hold(s.futures[f], AwaitHolder(c))]);
      Goto(RetainFrame(armed, ContextOwner(c)), a, InAwait(AwaitRegister(c)))
  }

  /** register_future_continuation: queue, or run the callback at once when the future is settled. */
  function RegisterAwait(s: State, a: Id, c: Id): State
    requires a in s.acts && c in s.regs && s.regs[c].home in s.futures
  {
    var f := s.regs[c].home;
    var future := s.futures[f].future;
    if future.settlement.Pending? then
      var region := RegisterRegion(future, c);
      var queued := s.(regs := s.regs[c := s.regs[c].(id := region.1, place := Queued)]);
      Goto(SetFuture(queued, f, region.0), a, InAwait(AwaitToken(c, region.1)))
    else
      End(Invoke(s, s.acts[a].thread, c, future.settlement), a)
  }

  function PublishToken(s: State, a: Id, c: Id, id: int): State
    requires a in s.acts && c in s.regs
  {
    if s.await.registered && s.await.context == Some(c) && s.await.generation == s.regs[c].generation then
      End(s.(await := s.await.(continuationId := id)), a)
    else End(s, a)
  }

  // ---------- invalidate_async_await ----------

  function AfterInvalidation(after: AfterInvalidate): Pc {
    match after
    case ToReady(resume, value, status) => InAwait(AwaitPublish(resume, value, status))
    case ToArm(f, resume) => InAwait(AwaitArm(f, resume))
    case ToSettle(kind) => InTerminal(kind, TermSettle)
  }

  function Unregistered(w: Await): Await {
    w.(registered := false, awaited := None, context := None, resume := 0, continuationId := 0)
  }

  function InvalidateRegion(s: State, a: Id, after: AfterInvalidate): State
    requires a in s.acts
    requires s.await.awaited.Some? ==> s.await.context.Some? && s.await.context.value in s.regs
  {
    var w := s.await;
    var cleared := s.(await := Unregistered(w).(generation := w.generation + 1));
    if w.awaited.Some? then
      var c := w.context.value;
      Goto(cleared.(regs := s.regs[c := s.regs[c].(retain := ByActivity(a))]),
           a, InInvalidate(after, InvRemove(w.awaited.value, c, w.continuationId)))
    else Goto(cleared, a, AfterInvalidation(after))
  }

  function InvalidateRemove(s: State, a: Id, after: AfterInvalidate, f: Id, c: Id, id: int): State
    requires a in s.acts && f in s.futures
    requires var removed := RemoveRegion(s.futures[f].future, id).1; removed.Some? ==> removed.value in s.regs
  {
    var region := RemoveRegion(s.futures[f].future, id);
    if region.1.None? then Goto(s, a, InInvalidate(after, InvRelease(f, c)))
    else
      Goto(Move(SetFuture(s, f, region.0), region.1.value, Detaching(a)), a,
        InInvalidate(after, InvDrop(f, c, region.1.value)))
  }

  function InvalidateDrop(s: State, a: Id, after: AfterInvalidate, f: Id, c: Id, t: Id): State
    requires a in s.acts && t in s.regs
  {
    ReleaseFrame(Goto(Move(s, t, Detached), a, InInvalidate(after, InvRelease(f, c))), ContextOwner(t),
      s.acts[a].thread)
  }

  function ReleaseAwaited(s: State, c: Id): State
    requires c in s.regs && s.regs[c].home in s.futures
  {
    var f := s.regs[c].home;
    s.(futures := s.futures[f := Unhold(s.futures[f], AwaitHolder(c))],
       regs := s.regs[c := s.regs[c].(retain := Released)])
  }

  // ---------- raz_rt_async_result_store and raz_rt_async_frame_cancel ----------

  function ClaimIntent(s: State, a: Id, kind: Terminal): State
    requires a in s.acts
  {
    if s.term.intent != NoIntent then End(s, a)
    else Goto(s.(term := s.term.(intent := IntentOf(kind), winner := Some(a))), a, InTerminal(kind, TermEnter))
  }

  function CasLifecycle(s: State, a: Id, kind: Terminal): State
    requires a in s.acts
  {
    if s.term.lifecycle != Active then End(s, a)
    else
      Goto(s.(term := s.term.(lifecycle := if kind.Complete? then Completing else Cancelling)), a,
        InTerminal(kind, TermGuard))
  }

  function StoreTerminal(s: State, a: Id, kind: Terminal): State
    requires a in s.acts
  {
    var term := if kind.Complete? then s.term.(result := kind.value) else s.term;
    var published := if kind.Complete? then s.published else s.published.(cancelled := true);
    Goto(s.(term := term, published := published), a, InInvalidate(ToSettle(kind), InvRegion))
  }

  function PublishLifecycle(s: State, a: Id, kind: Terminal): State
    requires a in s.acts
  {
    Goto(s.(term := s.term.(lifecycle := if kind.Complete? then Completed else Cancelled)), a,
      InTerminal(kind, TermUnguard))
  }

  // ---------- finish_future ----------

  function DeliverNext(s: State, a: Id, f: Id, pending: seq<Entry>, next: AfterDeliver): State
    requires a in s.acts
    requires pending != [] ==> f in s.futures && s.futures[f].future.settlement.Settled? && pending[0].token in s.regs
  {
    if pending != [] then
      Invoke(Goto(s, a, InDeliver(f, pending[1..], next)), s.acts[a].thread, pending[0].token,
        s.futures[f].future.settlement)
    else match next
      case ToClient => End(s, a)
      case ToPublish(kind) => Goto(s, a, InTerminal(kind, TermPublish))
      case ToRelease => Goto(s, a, InDtor(DtorRelease))
  }

  // ---------- async_await_continuation and request_async_poll ----------

  /** The generation test that decides whether a callback may resume the frame. */
  predicate IsCurrent(s: State, c: Id)
    requires c in s.regs
  {
    && s.term.lifecycle == Active
    && s.await.registered
    && s.await.awaited == Some(s.regs[c].home)
    && s.await.generation == s.regs[c].generation
    && s.await.resume == s.regs[c].resume
  }

  function AcceptCallback(s: State, a: Id, c: Id, value: int, status: int): State
    requires a in s.acts && c in s.regs
  {
    if IsCurrent(s, c) then
      Goto(s.(await := Unregistered(s.await),
              published := Published(s.regs[c].resume, s.published.cancelled || status < 0, value, status),
              poll := s.poll.(owed := Some(a)),
              regs := s.regs[c := s.regs[c].(retain := ByActivity(a))]),
           a, InCallback(c, CbReleaseFuture))
    else Goto(s, a, InCallback(c, CbExit))
  }

  function RequestPoll(s: State, a: Id, c: Id): State
    requires a in s.acts
  {
    if s.poll.running then Goto(s.(poll := s.poll.(requested := true)), a, InCallback(c, CbExit))
    else
      Goto(s.(poll := s.poll.(requested := true, running := true, poller := Some(a))), a, InCallback(c, LoopCheck(0)))
  }

  /**
   The loop test of request_async_poll, where a pass starts. It loads the intent and then the
   lifecycle; the lifecycle of a live frame cannot change in between, because only a holder of the
   gate changes it, so both loads take effect with the first. The intent may be claimed by the time the poll
   function is entered.
   */
  function CheckLoop(s: State, a: Id, c: Id, passes: int): State
    requires a in s.acts
  {
    if s.poll.requested && s.term.intent == NoIntent && s.term.lifecycle == Active then
      Goto(s.(poll := s.poll.(requested := false, owed := None)), a, InCallback(c, InPass(passes)))
    else
      Goto(s.(poll := s.poll.(running := false, requested := false, poller := None)), a, InCallback(c, CbExit))
  }

  const PollQuantum := 64

  function EndPass(s: State, a: Id, c: Id, passes: int): State
    requires a in s.acts
  {
    if passes + 1 >= PollQuantum && s.poll.requested && s.term.intent == NoIntent
      then Goto(s, a, InCallback(c, LoopYield))
    else Goto(s, a, InCallback(c, LoopCheck(passes + 1)))
  }

  function ExitCallback(s: State, a: Id, c: Id): State
    requires a in s.acts && c in s.regs
  {
    End(ReleaseFrame(Move(s, c, Called), ContextOwner(c), s.acts[a].thread), a)
  }

  // ---------- ~RazAsyncFrame ----------

  function DestroyAwaited(s: State, a: Id): State
    requires a in s.acts
    requires s.await.awaited.Some? ==> s.await.awaited.value in s.futures
  {
    if s.await.awaited.Some? then
      var f := s.await.awaited.value;
      var holder := AwaitHolder(if s.await.context.Some? then s.await.context.value else 0);
      Goto(s.(futures := s.futures[f := Unhold(s.futures[f], holder)]), a, InDtor(DtorSettle))
    else Goto(s, a, InDtor(DtorSettle))
  }

  function DestroyRelease(s: State, a: Id): State
    requires s.term.completion in s.futures
  {
    var f := s.term.completion;
    End(s.(futures := s.futures[f := Unhold(s.futures[f], CompletionHolder)]), a)
  }

  // ---------- transitions ----------

  datatype Label =
    | Advance(act: Id)
    | StartAwait(thread: int, viaPass: bool, fut: Id, resume: int)
    | StartTerminal(thread: int, viaPass: bool, kind: Terminal)
    | StartFinish(thread: int, fut: Id, value: int, cancel: bool)
    | Then(fut: Id)
    | CloseHandle(thread: int)
    | NewFuture(fut: Id)
    | RetainFuture(fut: Id, k: Id)
    | ReleaseFuture(fut: Id, k: Id)

  /** What the code of a running pass, or the owner of the open handle, may use. */
  predicate MayUseFrame(s: State, viaPass: bool) {
    if viaPass then s.poll.poller.Some? && s.poll.poller.value in s.acts && PassPc(s.acts[s.poll.poller.value].pc)
    else HandleOwner in s.life.owners
  }

  /** Every lookup that the next step of this activity makes is defined. */
  predicate Resolvable(s: State, pc: Pc) {
    match pc
    case InAwait(AwaitProbe(f, _)) => f in s.futures
    case InAwait(AwaitArm(f, _)) => f in s.futures
    case InAwait(AwaitRegister(c)) => c in s.regs && s.regs[c].home in s.futures
    case InAwait(AwaitToken(c, _)) => c in s.regs
    case InInvalidate(_, InvRegion) =>
      s.await.awaited.Some? ==> s.await.context.Some? && s.await.context.value in s.regs
    case InInvalidate(_, InvRemove(f, _, id)) =>
      f in s.futures && var removed := RemoveRegion(s.futures[f].future, id).1; removed.Some? ==>
        removed.value in s.regs
    case InInvalidate(_, InvDrop(_, _, t)) => t in s.regs
    case InInvalidate(_, InvRelease(_, c)) => c in s.regs && s.regs[c].home in s.futures
    case InFinish(f, settlement) => f in s.futures && settlement.Settled?
    case InDeliver(f, pending, _) =>
      pending != [] ==> f in s.futures && s.futures[f].future.settlement.Settled? && pending[0].token in s.regs
    case InTerminal(_, TermSettle) => s.term.completion in s.futures
    case InCallback(c, step) =>
      (step.CbRegion? || step.CbReleaseFuture? || step.CbExit? ==> c in s.regs) &&
      (step.CbReleaseFuture? ==> s.regs[c].home in s.futures)
    case InDtor(DtorAwaited) => s.await.awaited.Some? ==> s.await.awaited.value in s.futures
    case InDtor(DtorSettle) => s.term.completion in s.futures
    case InDtor(DtorRelease) => s.term.completion in s.futures
    case _ => true
  }

  /** The activity is about to lock the poll gate. */
  predicate AtGate(pc: Pc) {
    match pc
    case InAwait(step) => step.AwaitEnter?
    case InTerminal(_, step) => step.TermEnter?
    case InCallback(_, step) => step.CbEnter? || step.LoopYield?
    case _ => false
  }

  /** Blocking points: the recursive gate, and a pass ends only after the calls it made returned. */
  predicate Ready(s: State, a: Id)
    requires a in s.acts
  {
    var pc := s.acts[a].pc;
    && Resolvable(s, pc)
    && (AtGate(pc) ==> GateFree(s, s.acts[a].thread))
    && (PassPc(pc) ==> Resumable(s, a) && forall b :: b in s.acts ==> !s.acts[b].viaPass)
    && (pc.InDeliver? && pc.next.ToPublish? && pc.pending == [] ==> Resumable(s, a))
  }

  predicate Enabled(s: State, l: Label) {
    match l
    case Advance(a) => a in s.acts && Ready(s, a)
    case StartAwait(_, viaPass, f, _) => MayUseFrame(s, viaPass) && f in s.futures
    case StartTerminal(_, viaPass, _) => MayUseFrame(s, viaPass)
    case StartFinish(_, f, _, _) => f in s.futures
    case Then(f) => f in s.futures
    // The handle stays open during a call that uses it, until the call holds its own reference.
    case CloseHandle(_) =>
      HandleOwner in s.life.owners && forall b :: b in s.acts && !s.acts[b].viaPass ==> !Unguarded(s.acts[b].pc)
    case NewFuture(f) => f !in s.futures
    case RetainFuture(f, k) => f in s.futures && ClientHolder(k) !in s.futures[f].holders
    case ReleaseFuture(f, k) => f in s.futures && ClientHolder(k) in s.futures[f].holders
  }

  function AdvanceAwait(s: State, a: Id, step: AwaitStep): State
    requires a in s.acts && s.acts[a].pc == InAwait(step) && Ready(s, a)
  {
    match step
    case AwaitEnter(f, resume) => Goto(s, a, InAwait(AwaitProbe(f, resume)))
    case AwaitProbe(f, resume) => ProbeAwait(s, a, f, resume)
    case AwaitCheck(f, resume) => CheckAwait(s, a, f, resume)
    case AwaitPublish(resume, value, status) => PublishReady(s, a, resume, value, status)
    case AwaitArm(f, resume) => ArmAwait(s, a, f, resume)
    case AwaitRegister(c) => RegisterAwait(s, a, c)
    case AwaitToken(c, id) => PublishToken(s, a, c, id)
  }

  function AdvanceInvalidate(s: State, a: Id, after: AfterInvalidate, step: InvStep): State
    requires a in s.acts && s.acts[a].pc == InInvalidate(after, step) && Ready(s, a)
  {
    match step
    case InvRegion => InvalidateRegion(s, a, after)
    case InvRemove(f, c, id) => InvalidateRemove(s, a, after, f, c, id)
    case InvDrop(f, c, t) => InvalidateDrop(s, a, after, f, c, t)
    case InvRelease(_, c) => Goto(ReleaseAwaited(s, c), a, AfterInvalidation(after))
  }

  function AdvanceTerminal(s: State, a: Id, kind: Terminal, step: TermStep): State
    requires a in s.acts && s.acts[a].pc == InTerminal(kind, step) && Ready(s, a)
  {
    match step
    case TermClaim => ClaimIntent(s, a, kind)
    case TermEnter => Goto(s, a, InTerminal(kind, TermCas))
    case TermCas => CasLifecycle(s, a, kind)
    case TermGuard => Goto(RetainFrame(s, GuardOwner(a)), a, InTerminal(kind, TermStore))
    case TermStore => StoreTerminal(s, a, kind)
    case TermSettle => SettleBy(s, a, s.term.completion, SettlementOf(kind), ToPublish(kind))
    case TermPublish => PublishLifecycle(s, a, kind)
    case TermUnguard => End(ReleaseFrame(s, GuardOwner(a), s.acts[a].thread), a)
  }

  function AdvanceCallback(s: State, a: Id, c: Id, step: CbStep): State
    requires a in s.acts && s.acts[a].pc == InCallback(c, step) && Ready(s, a)
  {
    match step
    case CbEnter(value, status) => Goto(s, a, InCallback(c, CbRegion(value, status)))
    case CbRegion(value, status) => AcceptCallback(s, a, c, value, status)
    case CbReleaseFuture => Goto(ReleaseAwaited(s, c), a, InCallback(c, CbRequest))
    case CbRequest => RequestPoll(s, a, c)
    case LoopCheck(passes) => CheckLoop(s, a, c, passes)
    case InPass(passes) => EndPass(s, a, c, passes)
    case LoopYield => Goto(s, a, InCallback(c, LoopCheck(0)))
    case CbExit => ExitCallback(s, a, c)
  }

  function AdvanceDtor(s: State, a: Id, step: DtorStep): State
    requires a in s.acts && s.acts[a].pc == InDtor(step) && Ready(s, a)
  {
    match step
    case DtorStore => Goto(s.(term := s.term.(lifecycle := Destroying)), a, InDtor(DtorAwaited))
    case DtorAwaited => DestroyAwaited(s, a)
    case DtorSettle => SettleBy(s, a, s.term.completion, Settled(0, true), ToRelease)
    case DtorRelease => DestroyRelease(s, a)
  }

  /** One step of an activity. */
  function Advanced(s: State, a: Id): State
    requires a in s.acts && Ready(s, a)
  {
    match s.acts[a].pc
    case InAwait(step) => AdvanceAwait(s, a, step)
    case InInvalidate(after, step) => AdvanceInvalidate(s, a, after, step)
    case InTerminal(kind, step) => AdvanceTerminal(s, a, kind, step)
    case InFinish(f, settlement) => SettleBy(s, a, f, settlement, ToClient)
    case InDeliver(f, pending, next) => DeliverNext(s, a, f, pending, next)
    case InCallback(c, step) => AdvanceCallback(s, a, c, step)
    case InDtor(step) => AdvanceDtor(s, a, step)
  }

  /** raz_rt_future_then_i64: a client continuation, queued or called at once. */
  function ThenRegister(s: State, f: Id): State
    requires f in s.futures
  {
    var t := s.nextReg;
    var future := s.futures[f].future;
    var region := RegisterRegion(future, t);
    var settled := future.settlement;
    var registration := Registration(f, false, 0, 0, region.1, if settled.Pending? then Queued else Called, settled,
      Released);
    SetFuture(s.(regs := s.regs[t := registration], nextReg := t + 1), f, region.0)
  }

  function Apply(s: State, l: Label): State
    requires Enabled(s, l)
  {
    match l
    case Advance(a) => Advanced(s, a)
    case StartAwait(thread, viaPass, f, resume) => Spawn(s, Activity(thread, viaPass, InAwait(AwaitEnter(f, resume))))
    case StartTerminal(thread, viaPass, kind) => Spawn(s, Activity(thread, viaPass, InTerminal(kind, TermClaim)))
    case StartFinish(thread, f, value, cancel) => Spawn(s, Activity(thread, false, InFinish(f, Settled(value, cancel))))
    case Then(f) => ThenRegister(s, f)
    case CloseHandle(thread) => ReleaseFrame(s, HandleOwner, thread)
    case NewFuture(f) => s.(futures := s.futures[f := FutureCell(FreshFuture, 1, {ClientHolder(0)})])
    case RetainFuture(f, k) => s.(futures := s.futures[f := Hold(s.futures[f], ClientHolder(k))])
    case ReleaseFuture(f, k) => s.(futures := s.futures[f := Unhold(s.futures[f], ClientHolder(k))])
  }

  /** raz_rt_async_frame_create: one open handle and a pending completion future. */
  function Initial(completion: Id): State {
    State(map[completion := FutureCell(FreshFuture, 1, {CompletionHolder})], map[], map[], 0, 0,
          Life(1, {HandleOwner}, None),
          Term(Active, NoIntent, 0, completion, None, false),
          Poll(false, false, None, None),
          Await(false, None, None, 0, 0, 0),
          Published(0, false, 0, 0))
  }
}
