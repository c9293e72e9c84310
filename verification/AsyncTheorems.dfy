/** What the protocol guarantees over every run, for any number of threads and any interleaving. */
module AsyncTheorems {
  import opened Basics
  import opened Futures
  import opened AsyncProtocol
  import opened AsyncInvariant
  import opened AsyncPreservation
  import opened AsyncStep
  import opened AsyncHistory
  import opened AsyncEvents

  /** `labels[i]` takes `states[i]` to `states[i + 1]`. */
  datatype Run = Run(states: seq<State>, labels: seq<Label>)

  ghost predicate IsRun(r: Run, completion: Id) {
    && |r.states| == |r.labels| + 1
    && r.states[0] == Initial(completion)
    && forall i :: 0 <= i < |r.labels| ==>
      Enabled(r.states[i], r.labels[i]) && r.states[i + 1] == Apply(r.states[i], r.labels[i])
  }

  // ---------- induction over runs ----------

  lemma {:induction false} Reachable(r: Run, completion: Id, i: nat)
    requires IsRun(r, completion) && i < |r.states|
    ensures Inv(r.states[i])
  {
    if i == 0 {
      InitialHolds(completion);
    } else {
      Reachable(r, completion, i - 1);
      StepKeeps(r.states[i - 1], r.labels[i - 1]);
    }
  }

  lemma StepForward(r: Run, completion: Id, k: nat)
    requires IsRun(r, completion) && k < |r.labels|
    ensures Evolves(r.states[k], r.states[k + 1])
  {
    Reachable(r, completion, k);
    StepEvolves(r.states[k], r.labels[k]);
  }

  lemma {:induction false} StepsForward(states: seq<State>, i: nat, j: nat)
    requires i <= j < |states| && forall k :: i <= k < j ==> Evolves(states[k], states[k + 1])
    ensures Evolves(states[i], states[j])
  {
    if i < j {
      StepsForward(states, i, j - 1);
      EvolvesTransitive(states[i], states[j - 1], states[j]);
    }
  }

  lemma NothingGoesBack(r: Run, completion: Id, i: nat, j: nat)
    requires IsRun(r, completion) && i <= j < |r.states|
    ensures Evolves(r.states[i], r.states[j])
  {
    forall k | i <= k < j ensures Evolves(r.states[k], r.states[k + 1]) { StepForward(r, completion, k); }
    StepsForward(r.states, i, j);
  }

  /** How often an event happened to registration `t` in the first `n` steps. */
  ghost function Count(k: Event, r: Run, completion: Id, t: Id, n: nat): nat
    requires IsRun(r, completion) && n <= |r.labels|
  {
    if n == 0 then 0
    else Count(k, r, completion, t, n - 1) + (if EventOf(k, r.states[n - 1], r.labels[n - 1]) == Some(t) then 1 else 0)
  }

  lemma {:induction false} CountIsMark(k: Event, r: Run, completion: Id, t: Id, n: nat)
    requires IsRun(r, completion) && n <= |r.labels|
    ensures Count(k, r, completion, t, n) == if Happened(k, r.states[n], t) then 1 else 0
  {
    if n > 0 {
      CountIsMark(k, r, completion, t, n - 1);
      Reachable(r, completion, n - 1);
      StepExact(k, r.states[n - 1], r.labels[n - 1], t);
    }
  }

  // ---------- await contexts ----------

  /** Await contexts that have not been consumed, and calls inside a publication guard. */
  function LiveContexts(s: State): set<Id> {
    set c | c in s.regs && s.regs[c].isAwait && !Consumed(s.regs[c].place)
  }

  function Guards(s: State): set<Id> {
    set a | a in s.acts && Guarded(s.acts[a].pc)
  }

  /** Exactly the open handle, the live contexts and the guards own a reference. */
  lemma OwnersAre(s: State, o: Owner)
    requires Inv(s)
    ensures match o
      case HandleOwner => true
      case ContextOwner(c) => o in s.life.owners <==> c in LiveContexts(s)
      case GuardOwner(a) => o in s.life.owners <==> a in Guards(s)
  {
    match o
    case HandleOwner =>
    case ContextOwner(c) => assert c in s.regs ==> RegOk(s, c);
    case GuardOwner(a) => assert a in s.acts ==> ActOk(s, a);
  }

  /** Counting a set of owners by kind. */
  lemma OwnersByKind(owners: set<Owner>, contexts: set<Id>, guards: set<Id>)
    requires forall c :: ContextOwner(c) in owners <==> c in contexts
    requires forall a :: GuardOwner(a) in owners <==> a in guards
    ensures |owners| == (if HandleOwner in owners then 1 else 0) + |contexts| + |guards|
  {
    var handle := if HandleOwner in owners then {HandleOwner} else {};
    var byContext := set c | c in contexts :: ContextOwner(c);
    var byGuard := set a | a in guards :: GuardOwner(a);
    ImageSize(contexts, byContext, c => ContextOwner(c));
    ImageSize(guards, byGuard, a => GuardOwner(a));
    assert owners <= handle + (byContext + byGuard) by {
      forall o | o in owners ensures o in handle + (byContext + byGuard) {
        match o
        case HandleOwner =>
        case ContextOwner(c) => assert c in contexts;
        case GuardOwner(a) => assert a in guards;
      }
    }
    assert owners == handle + (byContext + byGuard);
    assert byContext !! byGuard && handle !! byContext + byGuard;
  }

  /** The frame count is the open handle plus live contexts plus publication guards, in every reachable state. */
  lemma FrameCount(r: Run, completion: Id, i: nat)
    requires IsRun(r, completion) && i < |r.states|
    ensures var s := r.states[i];
      s.life.references == (if HandleOwner in s.life.owners then 1 else 0) + |LiveContexts(s)| + |Guards(s)|
  {
    var s := r.states[i];
    Reachable(r, completion, i);
    assert forall c :: ContextOwner(c) in s.life.owners <==> c in LiveContexts(s) by {
      forall c ensures ContextOwner(c) in s.life.owners <==> c in LiveContexts(s) { OwnersAre(s, ContextOwner(c)); }
    }
    assert forall a :: GuardOwner(a) in s.life.owners <==> a in Guards(s) by {
      forall a ensures GuardOwner(a) in s.life.owners <==> a in Guards(s) { OwnersAre(s, GuardOwner(a)); }
    }
    OwnersByKind(s.life.owners, LiveContexts(s), Guards(s));
  }

  /** Contexts that still hold the reference their await took on future `f`. */
  function UnreleasedContexts(s: State, f: Id): set<Id> {
    set c | c in s.regs && s.regs[c].isAwait && s.regs[c].home == f && !s.regs[c].retain.Released?
  }

  function ClientHolders(holders: set<Holder>): set<Holder> {
    set h | h in holders && h.ClientHolder?
  }

  lemma HoldersByKind(holders: set<Holder>, contexts: set<Id>)
    requires forall c :: AwaitHolder(c) in holders <==> c in contexts
    ensures |holders| == |ClientHolders(holders)| + |contexts| + if CompletionHolder in holders then 1 else 0
  {
    var completion := if CompletionHolder in holders then {CompletionHolder} else {};
    var byContext := set c | c in contexts :: AwaitHolder(c);
    ImageSize(contexts, byContext, c => AwaitHolder(c));
    assert holders <= completion + (byContext + ClientHolders(holders)) by {
      forall h | h in holders ensures h in completion + (byContext + ClientHolders(holders)) {
        match h
        case ClientHolder(_) =>
        case AwaitHolder(c) => assert c in contexts;
        case CompletionHolder =>
      }
    }
    assert holders == completion + (byContext + ClientHolders(holders));
    assert byContext !! ClientHolders(holders) && completion !! byContext + ClientHolders(holders);
  }

  lemma AwaitHoldersAre(s: State, f: Id, c: Id)
    requires Inv(s) && f in s.futures
    ensures AwaitHolder(c) in s.futures[f].holders <==> c in UnreleasedContexts(s, f)
  {
    assert FutureOk(s.regs, s.term.completion, f, s.futures[f]);
    assert c in s.regs ==> RegOk(s, c);
  }

  /** A future's count is its clients plus the awaits that have not released it plus the frame it completes. */
  lemma FutureCount(r: Run, completion: Id, i: nat, f: Id)
    requires IsRun(r, completion) && i < |r.states| && f in r.states[i].futures
    ensures var cell := r.states[i].futures[f];
      cell.references == |ClientHolders(cell.holders)| + |UnreleasedContexts(r.states[i], f)|
                         + if CompletionHolder in cell.holders then 1 else 0
  {
    var s := r.states[i];
    Reachable(r, completion, i);
    assert FutureOk(s.regs, s.term.completion, f, s.futures[f]);
    assert forall c :: AwaitHolder(c) in s.futures[f].holders <==> c in UnreleasedContexts(s, f) by {
      forall c ensures AwaitHolder(c) in s.futures[f].holders <==> c in UnreleasedContexts(s, f) {
        AwaitHoldersAre(s, f, c);
      }
    }
    HoldersByKind(s.futures[f].holders, UnreleasedContexts(s, f));
  }

  /**
   In every run an await context is decided at most once (accepted, stale or detached), consumed
   at most once, and never consumed undecided; its future reference is released at most once.
   */
  lemma ContextConsumedOnce(r: Run, completion: Id, c: Id)
    requires IsRun(r, completion)
    ensures var n, s := |r.labels|, r.states[|r.labels|];
      && (forall k: Event :: Count(k, r, completion, c, n) <= 1)
      && Count(Consuming, r, completion, c, n) <= Count(Deciding, r, completion, c, n)
      && (Count(Consuming, r, completion, c, n) == 0 && c in s.regs && s.regs[c].isAwait <==> c in LiveContexts(s))
      && (c in s.regs && s.regs[c].isAwait && Count(Releasing, r, completion, c, n) == 0 <==>
          c in s.regs && c in UnreleasedContexts(s, s.regs[c].home))
  {
    var n, s := |r.labels|, r.states[|r.labels|];
    forall k: Event ensures Count(k, r, completion, c, n) == if Happened(k, s, c) then 1 else 0 {
      CountIsMark(k, r, completion, c, n);
    }
  }

  /**
   When nothing is under way, a context whose future is settled has been consumed, and every
   context except the one registered await has released its future.
   */
  lemma QuiescentContexts(r: Run, completion: Id, i: nat, c: Id)
    requires IsRun(r, completion) && i < |r.states| && r.states[i].acts == map[] && IsAwait(r.states[i].regs, c)
    ensures var s := r.states[i];
      && s.regs[c].home in s.futures
      && (if s.futures[s.regs[c].home].future.settlement.Settled? then Consumed(s.regs[c].place)
          else s.regs[c].place.Queued? || s.regs[c].place.Detached?)
      && (s.regs[c].retain.Released? <==> s.await.context != Some(c))
  {
    Reachable(r, completion, i);
    assert RegOk(r.states[i], c);
    assert FutureOk(r.states[i].regs, r.states[i].term.completion, r.states[i].regs[c].home,
      r.states[i].futures[r.states[i].regs[c].home]);
  }

  /** The callback that resumes the frame is the registered await, and no await was armed after it. */
  lemma OnlyLatestResumes(r: Run, completion: Id, i: nat, a: Id, c: Id)
    requires IsRun(r, completion) && i < |r.states|
    requires var s := r.states[i];
      a in s.acts && s.acts[a].pc.InCallback? && s.acts[a].pc.ctx == c && s.acts[a].pc.cb.CbRegion? && c in s.regs
    ensures var s := r.states[i];
      && (IsCurrent(s, c) <==> s.await.context == Some(c))
      && (IsCurrent(s, c) ==> forall t :: IsAwait(s.regs, t) && t != c ==> s.regs[t].generation < s.regs[c].generation)
  {
    var s := r.states[i];
    Reachable(r, completion, i);
    assert ActOk(s, a) && RegOk(s, c);
    WinnerNotAhead(s, a);
    forall t | IsAwait(s.regs, t) && t != c && IsCurrent(s, c) ensures s.regs[t].generation < s.regs[c].generation {
      assert RegOk(s, t);
    }
  }

  /** A frame whose count is zero has no pending await, no open handle and no running call that uses it. */
  lemma CountZero(r: Run, completion: Id, i: nat)
    requires IsRun(r, completion) && i < |r.states| && r.states[i].life.references <= 0
    ensures var s := r.states[i];
      && !s.await.registered && s.await.awaited.None? && HandleOwner !in s.life.owners
      && LiveContexts(s) == {} && s.life.dtor.Some?
      && forall a :: a in s.acts ==> !Unguarded(s.acts[a].pc) && !Guarded(s.acts[a].pc) && !s.acts[a].pc.InCallback?
  {
    var s := r.states[i];
    Reachable(r, completion, i);
    FrameCount(r, completion, i);
    forall a | a in s.acts ensures !Unguarded(s.acts[a].pc) && !Guarded(s.acts[a].pc) && !s.acts[a].pc.InCallback? {
      if Unguarded(s.acts[a].pc) || Guarded(s.acts[a].pc) || s.acts[a].pc.InCallback? { FrameAlive(s, a); }
    }
  }

  /** Every call that touches the frame runs while it is alive, the final lifecycle store included. */
  lemma AliveWhileUsed(r: Run, completion: Id, i: nat, a: Id)
    requires IsRun(r, completion) && i < |r.states| && a in r.states[i].acts
    ensures var s := r.states[i]; var pc := s.acts[a].pc;
      && Resolvable(s, pc)
      && (!pc.InFinish? && !DtorPc(pc) && !(pc.InDeliver? && pc.next.ToClient?) ==>
            s.life.references > 0 && s.life.dtor.None?)
  {
    var s := r.states[i];
    Reachable(r, completion, i);
    LookupsDefined(s, a);
    if Unguarded(s.acts[a].pc) || Guarded(s.acts[a].pc) || s.acts[a].pc.InCallback? { FrameAlive(s, a); }
  }

  lemma LookupsDefined(s: State, a: Id)
    requires Inv(s) && a in s.acts
    ensures Resolvable(s, s.acts[a].pc)
  {
    var pc := s.acts[a].pc;
    assert ActOk(s, a);
    match pc
    case InAwait(AwaitRegister(c)) => assert RegOk(s, c);
    case InInvalidate(_, InvRemove(f, c, id)) =>
      assert RegOk(s, c);
      assert FutureOk(s.regs, s.term.completion, f, s.futures[f]);
    case InInvalidate(_, InvRelease(_, c)) => assert RegOk(s, c);
    case InDeliver(f, pending, _) => assert pending != [] ==> RegOk(s, pending[0].token);
    case InCallback(c, _) => assert RegOk(s, c);
    case InDtor(_) => DtorAlone(s, a);
    case _ =>
  }

  // ---------- the terminal protocol ----------

  /** At most one terminal request wins, its intent is final, and its lifecycle exchange never fails. */
  lemma OneTerminal(r: Run, completion: Id, i: nat, j: nat, a: Id, b: Id)
    requires IsRun(r, completion) && i <= j < |r.states|
    requires a in r.states[i].acts && Winning(r.states[i].acts[a].pc).Some?
    ensures var s, s' := r.states[i], r.states[j];
      && s'.term.intent == s.term.intent == IntentOf(Winning(s.acts[a].pc).value)
      && (b in s'.acts && Winning(s'.acts[b].pc).Some? ==> b == a)
      && (s.acts[a].pc.InTerminal? && s.acts[a].pc.term.TermCas? ==> s.term.lifecycle == Active)
  {
    Reachable(r, completion, i);
    Reachable(r, completion, j);
    NothingGoesBack(r, completion, i, j);
    assert ActOk(r.states[i], a);
    assert b in r.states[j].acts ==> ActOk(r.states[j], b);
  }

  /**
   Whoever sees completed or cancelled sees a settled completion future, with the winner's result
   if it settled it.
   */
  lemma ObservedFinal(r: Run, completion: Id, i: nat)
    requires IsRun(r, completion) && i < |r.states|
    requires r.states[i].term.lifecycle.Completed? || r.states[i].term.lifecycle.Cancelled?
    ensures var s := r.states[i];
      && completion in s.futures && s.futures[completion].future.settlement.Settled?
      && !s.await.registered
      && s.term.intent == (if s.term.lifecycle.Completed? then CompleteIntent else CancelIntent)
      && (s.term.byWinner ==>
           s.futures[completion].future.settlement == if s.term.lifecycle.Completed? then Settled(s.term.result, false)
             else Settled(0, true))
  {
    Reachable(r, completion, i);
    NothingGoesBack(r, completion, 0, i);
  }

  /** If nobody outside settled the completion future first, the winner's own value is what everyone sees later. */
  lemma WinnerSettles(r: Run, completion: Id, i: nat, j: nat, a: Id, kind: Terminal)
    requires IsRun(r, completion) && i < j < |r.states| && r.labels[i] == Advance(a)
    requires a in r.states[i].acts && r.states[i].acts[a].pc == InTerminal(kind, TermSettle)
    requires completion in r.states[i].futures && r.states[i].futures[completion].future.settlement.Pending?
    ensures completion in r.states[j].futures && r.states[j].futures[completion].future.settlement == SettlementOf(kind)
    ensures r.states[j].term.byWinner && (kind.Complete? ==> r.states[j].term.result == kind.value)
  {
    Reachable(r, completion, i);
    NothingGoesBack(r, completion, 0, i);
    NothingGoesBack(r, completion, i + 1, j);
    assert ActOk(r.states[i], a);
  }

  /** Once the lifecycle has left Active no further await is registered, ever. */
  lemma NoAwaitAfterTerminal(r: Run, completion: Id, i: nat, j: nat, c: Id)
    requires IsRun(r, completion) && i <= j < |r.states| && !r.states[i].term.lifecycle.Active?
    ensures IsAwait(r.states[j].regs, c) ==> IsAwait(r.states[i].regs, c)
    ensures r.states[j].await.registered ==> r.states[j].await.context == r.states[i].await.context
    ensures LifecycleReaches(r.states[i].term.lifecycle, r.states[j].term.lifecycle)
  {
    NothingGoesBack(r, completion, i, j);
  }

  // ---------- futures ----------

  /** A future settles at most once and everyone who looks afterwards sees the same value. */
  lemma SettledForGood(r: Run, completion: Id, i: nat, j: nat, f: Id)
    requires IsRun(r, completion) && i <= j < |r.states|
    requires f in r.states[i].futures && r.states[i].futures[f].future.settlement.Settled?
    ensures f in r.states[j].futures
    ensures r.states[j].futures[f].future.settlement == r.states[i].futures[f].future.settlement
  {
    NothingGoesBack(r, completion, i, j);
  }

  /**
   Each registration is called at most once, only with its future's settlement, and never if it
   was detached; once its future is settled and no delivery is under way it was called or detached.
   */
  lemma Delivery(r: Run, completion: Id, t: Id)
    requires IsRun(r, completion) && t in r.states[|r.labels|].regs
    ensures var n, s := |r.labels|, r.states[|r.labels|]; var reg := s.regs[t];
      && reg.home in s.futures
      && Count(Invoking, r, completion, t, n) <= 1
      && (Count(Invoking, r, completion, t, n) == 1 <==> reg.place.Calling? || reg.place.Called?)
      && (Count(Invoking, r, completion, t, n) == 1 ==>
            reg.call == s.futures[reg.home].future.settlement && reg.call.Settled?)
      && (reg.place.Detached? ==> Count(Invoking, r, completion, t, n) == 0)
      && (s.futures[reg.home].future.settlement.Settled? && (forall a :: a in s.acts ==> !Delivering(s.acts[a].pc)) ==>
           Count(Invoking, r, completion, t, n) == 1 || reg.place.Detached?)
  {
    var n, s := |r.labels|, r.states[|r.labels|];
    Reachable(r, completion, n);
    CountIsMark(Invoking, r, completion, t, n);
    assert RegOk(s, t);
    assert FutureOk(s.regs, s.term.completion, s.regs[t].home, s.futures[s.regs[t].home]);
  }

  /** Calls that carry a registration from one hand to the other. */
  predicate Delivering(pc: Pc) {
    pc.InDeliver? || (pc.InAwait? && pc.await.AwaitRegister?) || (pc.InInvalidate? && pc.inv.InvDrop?)
  }

  // ---------- the poll gate and the poll loop ----------

  /** Activities inside the poll gate belong to one thread and only one of them executes. */
  lemma GateExclusive(r: Run, completion: Id, i: nat, a: Id, b: Id)
    requires IsRun(r, completion) && i < |r.states| && a in r.states[i].acts && b in r.states[i].acts
    requires HoldsGate(r.states[i].acts[a].pc) && HoldsGate(r.states[i].acts[b].pc)
    ensures r.states[i].acts[a].thread == r.states[i].acts[b].thread
    ensures Busy(r.states[i].acts[a].pc) && Busy(r.states[i].acts[b].pc) ==> a == b
  {
    Reachable(r, completion, i);
  }

  /** Poll passes are never nested or concurrent: there is one poll loop at a time. */
  lemma OnePass(r: Run, completion: Id, i: nat, a: Id, b: Id)
    requires IsRun(r, completion) && i < |r.states| && a in r.states[i].acts && b in r.states[i].acts
    requires LoopPc(r.states[i].acts[a].pc) && LoopPc(r.states[i].acts[b].pc)
    ensures a == b && r.states[i].poll.running && r.states[i].poll.poller == Some(a)
  {
    Reachable(r, completion, i);
    assert ActOk(r.states[i], a) && ActOk(r.states[i], b);
  }

  /** This step enters the poll function. */
  predicate StartsPass(s: State, l: Label) {
    && Enabled(s, l) && l.Advance? && s.acts[l.act].pc.InCallback? && s.acts[l.act].pc.cb.LoopCheck?
    && PcOf(Apply(s, l).acts, l.act) == Some(InCallback(s.acts[l.act].pc.ctx, InPass(s.acts[l.act].pc.cb.passes)))
  }

  /** This step accepts a callback: it stores the resume state and owes the frame a pass. */
  predicate Accepts(s: State, l: Label) {
    && Enabled(s, l) && l.Advance? && s.acts[l.act].pc.InCallback? && s.acts[l.act].pc.cb.CbRegion?
    && IsCurrent(s, s.acts[l.act].pc.ctx)
  }

  /** A pass starts, by passing the loop test, only while the lifecycle is Active and no terminal request has won. */
  lemma PassStartsActive(s: State, l: Label, a: Id)
    requires Inv(s) && Enabled(s, l)
    requires PcOf(Apply(s, l).acts, a).Some? && PassPc(Apply(s, l).acts[a].pc)
    requires !(a in s.acts && PassPc(s.acts[a].pc))
    ensures l == Advance(a) && StartsPass(s, l) && s.term.lifecycle == Active && s.term.intent == NoIntent
  {
    if l.Advance? && l.act == a {
      if s.acts[a].pc.InCallback? {
        PassFromLoop(s, a, s.acts[a].pc.ctx, s.acts[a].pc.cb);
      } else {
        OnlyCallbacksPoll(s, a);
      }
    } else {
      OthersStay(s, l, a);
    }
  }

  lemma PassFromLoop(s: State, a: Id, c: Id, step: CbStep)
    requires a in s.acts && s.acts[a].pc == InCallback(c, step) && Ready(s, a) && a < s.nextAct
    requires var pc := PcOf(AdvanceCallback(s, a, c, step).acts, a); pc.Some? && PassPc(pc.value) && !step.InPass?
    ensures step.LoopCheck? && s.term.lifecycle == Active && s.term.intent == NoIntent
    ensures AdvanceCallback(s, a, c, step).acts[a].pc == InCallback(c, InPass(step.passes))
  {
  }

  /** Only a callback enters the poll loop. */
  lemma OnlyCallbacksPoll(s: State, a: Id)
    requires a in s.acts && Ready(s, a) && a < s.nextAct && !s.acts[a].pc.InCallback?
    ensures var pc := PcOf(Advanced(s, a).acts, a); pc.Some? ==> !pc.value.InCallback?
  {
    match s.acts[a].pc
    case InAwait(step) => AwaitNeverPolls(s, a, step);
    case InInvalidate(after, step) => InvalidateNeverPolls(s, a, after, step);
    case InDeliver(f, pending, next) => DeliverNeverPolls(s, a, f, pending, next);
    case _ =>
  }

  lemma AwaitNeverPolls(s: State, a: Id, step: AwaitStep)
    requires a in s.acts && s.acts[a].pc == InAwait(step) && Ready(s, a) && a < s.nextAct
    ensures var pc := PcOf(AdvanceAwait(s, a, step).acts, a); pc.Some? ==> !pc.value.InCallback?
  {
  }

  lemma InvalidateNeverPolls(s: State, a: Id, after: AfterInvalidate, step: InvStep)
    requires a in s.acts && s.acts[a].pc == InInvalidate(after, step) && Ready(s, a) && a < s.nextAct
    ensures var pc := PcOf(AdvanceInvalidate(s, a, after, step).acts, a); pc.Some? ==> !pc.value.InCallback?
  {
  }

  lemma DeliverNeverPolls(s: State, a: Id, f: Id, pending: seq<Entry>, next: AfterDeliver)
    requires a in s.acts && s.acts[a].pc == InDeliver(f, pending, next) && Ready(s, a) && a < s.nextAct
    ensures var pc := PcOf(DeliverNext(s, a, f, pending, next).acts, a); pc.Some? ==> !pc.value.InCallback?
  {
  }

  /** Activity `a` is the same before and after, or new and not polling. */
  ghost predicate Stays(s: State, s': State, a: Id) {
    a in s'.acts ==> if a in s.acts then s'.acts[a] == s.acts[a] else !PassPc(s'.acts[a].pc)
  }

  lemma CallStays(s: State, b: Id, a: Id)
    requires b in s.acts && Ready(s, b) && a != b && s.nextAct !in s.acts
    requires s.acts[b].pc.InAwait? || s.acts[b].pc.InInvalidate?
    ensures Stays(s, Advanced(s, b), a)
  {
  }

  lemma TerminalStays(s: State, b: Id, a: Id)
    requires b in s.acts && Ready(s, b) && a != b && s.nextAct !in s.acts
    requires s.acts[b].pc.InTerminal? || s.acts[b].pc.InFinish? || s.acts[b].pc.InDtor?
    ensures Stays(s, Advanced(s, b), a)
  {
  }

  lemma CallbackStays(s: State, b: Id, a: Id)
    requires b in s.acts && Ready(s, b) && a != b && s.nextAct !in s.acts
    requires s.acts[b].pc.InDeliver? || s.acts[b].pc.InCallback?
    ensures Stays(s, Advanced(s, b), a)
  {
  }

  lemma OthersStay(s: State, l: Label, a: Id)
    requires Enabled(s, l) && l != Advance(a) && s.nextAct !in s.acts
    ensures Stays(s, Apply(s, l), a)
  {
    if l.Advance? {
      match s.acts[l.act].pc
      case InAwait(_) => CallStays(s, l.act, a);
      case InInvalidate(_, _) => CallStays(s, l.act, a);
      case InTerminal(_, _) => TerminalStays(s, l.act, a);
      case InFinish(_, _) => TerminalStays(s, l.act, a);
      case InDtor(_) => TerminalStays(s, l.act, a);
      case InDeliver(_, _, _) => CallbackStays(s, l.act, a);
      case InCallback(_, _) => CallbackStays(s, l.act, a);
    }
  }

  lemma OwedStays(s: State, l: Label)
    requires Enabled(s, l) && s.poll.owed.Some? && !StartsPass(s, l)
    ensures Apply(s, l).poll.owed.Some?
  {
    if l.Advance? { OwedAdvances(s, l.act); }
  }

  lemma OwedAdvances(s: State, a: Id)
    requires Enabled(s, Advance(a)) && s.poll.owed.Some? && !StartsPass(s, Advance(a))
    ensures Advanced(s, a).poll.owed.Some?
  {
    match s.acts[a].pc
    case InInvalidate(after, step) => OwedInvalidation(s, a, after, step);
    case _ =>
  }

  lemma OwedInvalidation(s: State, a: Id, after: AfterInvalidate, step: InvStep)
    requires a in s.acts && s.acts[a].pc == InInvalidate(after, step) && Ready(s, a) && s.poll.owed.Some?
    ensures AdvanceInvalidate(s, a, after, step).poll.owed.Some?
  {
  }

  lemma {:induction false} OwedUntilPass(r: Run, completion: Id, i: nat, j: nat)
    requires IsRun(r, completion) && i <= j < |r.states| && r.states[i].poll.owed.Some?
    requires forall k :: i <= k < j ==> !StartsPass(r.states[k], r.labels[k])
    ensures r.states[j].poll.owed.Some?
  {
    if i < j {
      OwedUntilPass(r, completion, i, j - 1);
      OwedStays(r.states[j - 1], r.labels[j - 1]);
    }
  }

  /**
   No wakeup is lost: after a callback was accepted in step `i`, whenever the poll loop is idle
   and no accepted callback is on its way to it, a pass has started since or a terminal request won.
   */
  lemma WakeupServed(r: Run, completion: Id, i: nat, j: nat)
    requires IsRun(r, completion) && i < j < |r.states| && Accepts(r.states[i], r.labels[i])
    requires !r.states[j].poll.running
    requires forall a :: a in r.states[j].acts ==> !Waking(r.states[j].acts[a].pc)
    ensures r.states[j].term.intent != NoIntent || exists k :: i < k < j && StartsPass(r.states[k], r.labels[k])
    ensures var s, s' := r.states[i], r.states[i + 1];
      var c := s.acts[r.labels[i].act].pc.ctx;
      && s.regs[c].home in s.futures && s.futures[s.regs[c].home].future.settlement.Settled?
      && var settled := s.futures[s.regs[c].home].future.settlement;
         s'.published.state == s.regs[c].resume && s'.published.result == settled.value
           && s'.published.status == if settled.cancelled then -1 else 1
  {
    Reachable(r, completion, i);
    assert ActOk(r.states[i], r.labels[i].act) && RegOk(r.states[i], r.states[i].acts[r.labels[i].act].pc.ctx);
    Reachable(r, completion, j);
    if forall k :: i + 1 <= k < j ==> !StartsPass(r.states[k], r.labels[k]) {
      OwedUntilPass(r, completion, i + 1, j);
    }
  }
}
