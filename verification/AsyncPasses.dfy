/** The poll loop opens its gate after 64 passes: competing terminal requests wait for no more than that. */
module AsyncPasses {
  import opened Basics
  import opened AsyncProtocol
  import opened AsyncInvariant
  import opened AsyncPreservation
  import opened AsyncTheorems

  /** This step enters the poll loop, or locks the gate again after opening it. */
  predicate TakesGate(s: State, l: Label) {
    && l.Advance? && l.act in s.acts && s.acts[l.act].pc.InCallback?
    && (s.acts[l.act].pc.cb.LoopYield? || (s.acts[l.act].pc.cb.CbRequest? && !s.poll.running))
  }

  function NextCount(s: State, l: Label, n: nat): nat {
    if StartsPass(s, l) then n + 1 else if TakesGate(s, l) then 0 else n
  }

  /** Passes started in the first `n` steps since a poll loop last took the gate. */
  ghost function PassesSince(r: Run, completion: Id, n: nat): nat
    requires IsRun(r, completion) && n <= |r.labels|
  {
    if n == 0 then 0 else NextCount(r.states[n - 1], r.labels[n - 1], PassesSince(r, completion, n - 1))
  }

  /** The loop's own counter is the number of passes since it took the gate, and it never starts a 65th. */
  predicate Counts(poll: Poll, intent: Intent, cb: CbStep, n: nat) {
    match cb
    case LoopCheck(passes) => n == passes && (passes < 64 || (passes == 64 && !(poll.requested && intent == NoIntent)))
    case InPass(passes) => n == passes + 1 <= 64
    case LoopYield => n == 64
    case _ => true
  }

  ghost predicate LoopCounts(s: State, n: nat) {
    s.poll.poller.Some? && s.poll.poller.value in s.acts && s.acts[s.poll.poller.value].pc.InCallback? ==>
      Counts(s.poll, s.term.intent, s.acts[s.poll.poller.value].pc.cb, n)
  }

  /** Steps of callbacks, the loop among them. */
  lemma CallbackCounts(s: State, a: Id, c: Id, step: CbStep, n: nat)
    requires CoreAt(s, a, InCallback(c, step)) && LoopCounts(s, n) && s.nextAct !in s.acts
    requires forall b :: b in s.acts && LoopPc(s.acts[b].pc) ==> s.poll.poller == Some(b)
    ensures LoopCounts(AdvanceCallback(s, a, c, step), NextCount(s, Advance(a), n))
  {
    if step.CbRequest? && s.poll.poller.Some? {
      var b := s.poll.poller.value;
      assert HoldsGate(s.acts[b].pc) && a != b ==> !Busy(s.acts[b].pc);
    }
  }

  /** A step of anything else leaves the loop where it is; only the intent may appear. */
  ghost predicate LoopKept(s: State, s': State) {
    && s'.poll == s.poll && (s.term.intent != NoIntent ==> s'.term.intent == s.term.intent)
    && (s.poll.poller.Some? && s.poll.poller.value in s.acts ==>
          s.poll.poller.value in s'.acts && s'.acts[s.poll.poller.value] == s.acts[s.poll.poller.value])
  }

  lemma CallKeepsLoop(s: State, a: Id)
    requires a in s.acts && Ready(s, a) && (s.acts[a].pc.InAwait? || s.acts[a].pc.InInvalidate?)
    requires s.poll.poller != Some(a) && (s.poll.poller.Some? ==> s.poll.poller.value < s.nextAct)
    ensures LoopKept(s, Advanced(s, a))
  {
  }

  lemma ElseKeepsLoop(s: State, a: Id)
    requires a in s.acts && Ready(s, a)
    requires !s.acts[a].pc.InAwait? && !s.acts[a].pc.InInvalidate? && !s.acts[a].pc.InCallback?
    requires s.poll.poller != Some(a) && (s.poll.poller.Some? ==> s.poll.poller.value < s.nextAct)
    ensures LoopKept(s, Advanced(s, a))
  {
  }

  lemma ClientKeepsLoop(s: State, l: Label)
    requires Enabled(s, l) && !l.Advance? && (s.poll.poller.Some? ==> s.poll.poller.value < s.nextAct)
    ensures LoopKept(s, Apply(s, l))
  {
  }

  lemma CountStep(s: State, l: Label, n: nat)
    requires Inv(s) && Enabled(s, l) && LoopCounts(s, n)
    ensures LoopCounts(Apply(s, l), NextCount(s, l, n))
  {
    assert s.poll.poller.Some? ==> s.poll.poller.value in s.acts && ActOk(s, s.poll.poller.value);
    if l.Advance? && s.acts[l.act].pc.InCallback? {
      forall b | b in s.acts && LoopPc(s.acts[b].pc) ensures s.poll.poller == Some(b) { assert ActOk(s, b); }
      assert ActOk(s, l.act) && s.nextAct !in s.acts;
      CallbackCounts(s, l.act, s.acts[l.act].pc.ctx, s.acts[l.act].pc.cb, n);
    } else if l.Advance? {
      if s.acts[l.act].pc.InAwait? || s.acts[l.act].pc.InInvalidate? { CallKeepsLoop(s, l.act); }
      else { ElseKeepsLoop(s, l.act); }
    } else {
      ClientKeepsLoop(s, l);
    }
  }

  lemma {:induction false} LoopCounted(r: Run, completion: Id, n: nat)
    requires IsRun(r, completion) && n <= |r.labels|
    ensures LoopCounts(r.states[n], PassesSince(r, completion, n))
  {
    if n > 0 {
      var before := n - 1;
      var s, l, count := r.states[before], r.labels[before], PassesSince(r, completion, before);
      LoopCounted(r, completion, before);
      Reachable(r, completion, before);
      CountStep(s, l, count);
      assert r.states[n] == Apply(s, l) && PassesSince(r, completion, n) == NextCount(s, l, count);
    }
  }

  /**
   Between two openings of the gate a poll loop runs at most 64 passes, however many wakeups its
   passes request, and it opens the gate only after all 64.
   */
  lemma PassBudget(r: Run, completion: Id, n: nat, a: Id)
    requires IsRun(r, completion) && n <= |r.labels| && a in r.states[n].acts && LoopPc(r.states[n].acts[a].pc)
    ensures PassesSince(r, completion, n) <= 64
    ensures r.states[n].acts[a].pc.cb.LoopYield? ==> PassesSince(r, completion, n) == 64
  {
    LoopCounted(r, completion, n);
    Reachable(r, completion, n);
    assert ActOk(r.states[n], a);
  }
}
