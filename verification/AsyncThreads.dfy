/** Which thread runs what: callbacks and destructors run on the thread of the call that causes them. */
module AsyncThreads {
  import opened AsyncProtocol
  import opened AsyncInvariant
  import opened AsyncTheorems

  /** Activity `a` keeps its thread, or is new and runs on this one. */
  predicate RunsOn(s: State, s': State, a: Id, thread: int) {
    a in s'.acts ==> s'.acts[a].thread == if a in s.acts then s.acts[a].thread else thread
  }

  lemma CallThreads(s: State, b: Id, a: Id)
    requires b in s.acts && Ready(s, b) && s.nextAct !in s.acts && (s.acts[b].pc.InAwait? || s.acts[b].pc.InInvalidate?)
    ensures RunsOn(s, Advanced(s, b), a, s.acts[b].thread)
  {
  }

  lemma TerminalThreads(s: State, b: Id, a: Id)
    requires b in s.acts && Ready(s, b) && s.nextAct !in s.acts
    requires s.acts[b].pc.InTerminal? || s.acts[b].pc.InFinish? || s.acts[b].pc.InDtor?
    ensures RunsOn(s, Advanced(s, b), a, s.acts[b].thread)
  {
  }

  lemma CallbackThreads(s: State, b: Id, a: Id)
    requires b in s.acts && Ready(s, b) && s.nextAct !in s.acts
    requires s.acts[b].pc.InDeliver? || s.acts[b].pc.InCallback?
    ensures RunsOn(s, Advanced(s, b), a, s.acts[b].thread)
  {
  }

  /** A step of a call runs what it causes on the thread of the call, and no other activity changes threads. */
  lemma AdvanceThreads(s: State, b: Id, a: Id)
    requires b in s.acts && Ready(s, b) && s.nextAct !in s.acts
    ensures RunsOn(s, Advanced(s, b), a, s.acts[b].thread)
  {
    match s.acts[b].pc
    case InAwait(_) => CallThreads(s, b, a);
    case InInvalidate(_, _) => CallThreads(s, b, a);
    case InTerminal(_, _) => TerminalThreads(s, b, a);
    case InFinish(_, _) => TerminalThreads(s, b, a);
    case InDtor(_) => TerminalThreads(s, b, a);
    case InDeliver(_, _, _) => CallbackThreads(s, b, a);
    case InCallback(_, _) => CallbackThreads(s, b, a);
  }

  /** The thread of the call that a step makes or continues; other steps start no activity. */
  predicate ThreadOf(s: State, l: Label, thread: int) {
    match l
    case Advance(b) => b in s.acts && s.acts[b].thread == thread
    case StartAwait(t, _, _, _) => t == thread
    case StartTerminal(t, _, _) => t == thread
    case StartFinish(t, _, _, _) => t == thread
    case CloseHandle(t) => t == thread
    case _ => false
  }

  /**
   In every run an activity keeps its thread, and a new one is started on the thread of the call
   that the step makes or continues: continuations on that of whoever settles the future or finds
   it settled, the destructor on that of whoever drops the last reference.
   */
  lemma ThreadsFollowCalls(r: Run, completion: Id, i: nat, a: Id)
    requires IsRun(r, completion) && i < |r.labels| && a in r.states[i + 1].acts
    ensures if a in r.states[i].acts then r.states[i + 1].acts[a].thread == r.states[i].acts[a].thread
      else ThreadOf(r.states[i], r.labels[i], r.states[i + 1].acts[a].thread)
  {
    Reachable(r, completion, i);
    var s, l := r.states[i], r.labels[i];
    assert forall b :: b in s.acts ==> b < s.nextAct by {
      forall b | b in s.acts ensures b < s.nextAct { assert ActOk(s, b); }
    }
    if l.Advance? { AdvanceThreads(s, l.act, a); }
  }
}
