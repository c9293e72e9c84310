/**
 The one-shot future of the runtime.

 `Future` is the value a RazFuture holds between two lock-protected regions. The three region
 functions are what `register_future_continuation`, `remove_future_continuation` and
 `finish_future` do while they hold the future's mutex; the class below runs the same regions
 on mutable fields and is proved to compute exactly these functions.
 */
module Futures {
  import opened Basics

  datatype Settlement = Pending | Settled(value: int, cancelled: bool)

  /** A queued continuation: the id handed back to the caller and the registration it belongs to. */
  datatype Entry = Entry(id: int, token: int)

  datatype Future = Future(settlement: Settlement, continuations: seq<Entry>, nextId: int)

  const FreshFuture := Future(Pending, [], 1)

  /** 1 when completed, -1 when cancelled, 0 while pending. */
  function StatusOf(s: Settlement): int {
    match s
    case Pending => 0
    case Settled(_, cancelled) => if cancelled then -1 else 1
  }

  /** Ids of queued entries are positive, already handed out, and pairwise different. */
  ghost predicate WellFormed(f: Future) {
    && f.nextId >= 1
    && (forall i :: 0 <= i < |f.continuations| ==> 0 < f.continuations[i].id < f.nextId)
    && (forall i, j :: 0 <= i < j < |f.continuations| ==> f.continuations[i].id != f.continuations[j].id)
    && (f.settlement.Settled? ==> f.continuations == [])
  }

  /** A pending future queues the registration and returns its id; a settled one returns 0. */
  function RegisterRegion(f: Future, token: int): (Future, int) {
    if f.settlement.Pending? then
      (f.(continuations := f.continuations + [Entry(f.nextId, token)], nextId := f.nextId + 1), f.nextId)
    else (f, 0)
  }

  /** Index of the first entry with this id, or the length when there is none. */
  function IndexOf(entries: seq<Entry>, id: int): (k: nat)
    ensures k <= |entries|
    ensures k < |entries| ==> entries[k].id == id
    ensures forall i :: 0 <= i < k ==> entries[i].id != id
  {
    if entries == [] || entries[0].id == id then 0 else 1 + IndexOf(entries[1..], id)
  }

  function RemoveRegion(f: Future, id: int): (Future, Option<int>) {
    var k := IndexOf(f.continuations, id);
    if id == 0 || k == |f.continuations| then (f, None)
    else (f.(continuations := f.continuations[..k] + f.continuations[k + 1..]), Some(f.continuations[k].token))
  }

  /** The first settlement wins and takes every queued continuation with it. */
  function FinishRegion(f: Future, value: int, cancelled: bool): (Future, bool, seq<Entry>) {
    if f.settlement.Settled? then (f, false, [])
    else (f.(settlement := Settled(value, cancelled), continuations := []), true, f.continuations)
  }

  lemma WithoutKeepsOthers(s: seq<Entry>, k: nat)
    requires k < |s|
    ensures var rest := s[..k] + s[k + 1..];
      && |rest| == |s| - 1
      && (forall i :: 0 <= i < |rest| ==> rest[i] == s[if i < k then i else i + 1])
      && (forall e :: e in rest ==> e in s)
      && (forall e :: e in s && e != s[k] ==> e in rest)
  {
    var rest := s[..k] + s[k + 1..];
    forall e | e in s && e != s[k] ensures e in rest {
      var i :| 0 <= i < |s| && s[i] == e;
      assert rest[if i < k then i else i - 1] == e;
    }
  }

  /** Removal takes out exactly the entry with this id and keeps the order of the others. */
  lemma RemoveKeepsOthers(f: Future, id: int)
    requires WellFormed(f)
    ensures WellFormed(RemoveRegion(f, id).0)
    ensures forall e :: e in RemoveRegion(f, id).0.continuations ==> e in f.continuations && e.id != id
    ensures forall e :: e in f.continuations && e.id != id ==> e in RemoveRegion(f, id).0.continuations
  {
    var k := IndexOf(f.continuations, id);
    if k < |f.continuations| && id != 0 { WithoutKeepsOthers(f.continuations, k); }
  }

  /** The future as the runtime stores it: two flags, a result, and the continuation vector. */
  class RazFuture {
    var complete: bool
    var cancelled: bool
    var result: int
    var continuations: seq<Entry>
    var nextContinuationId: int

    ghost function View(): Future
      reads this
    {
      Future(if cancelled then Settled(result, true) else if complete then Settled(result, false) else Pending,
             continuations, nextContinuationId)
    }

    ghost predicate Valid()
      reads this
    {
      !(complete && cancelled) && WellFormed(View())
    }

    constructor ()
      ensures Valid() && View() == FreshFuture
    {
      complete, cancelled, result := false, false, 0;
      continuations, nextContinuationId := [], 1;
    }

    /** Returns the id, or 0 together with the value and status the caller must now deliver itself. */
    method Register(token: int) returns (id: int, value: int, status: int)
      requires Valid()
      modifies this
      ensures Valid()
      ensures (View(), id) == RegisterRegion(old(View()), token)
      ensures id == 0 <==> old(View()).settlement.Settled?
      ensures id == 0 ==> value == old(View()).settlement.value && status == StatusOf(old(View()).settlement)
    {
      value, status := 0, 0;
      if !complete && !cancelled {
        id := nextContinuationId;
        nextContinuationId := nextContinuationId + 1;
        continuations := continuations + [Entry(id, token)];
        return;
      }
      id := 0;
      value := result;
      status := if cancelled then -1 else 1;
    }

    method Remove(id: int) returns (removed: Option<int>)
      requires Valid()
      modifies this
      ensures Valid()
      ensures (View(), removed) == RemoveRegion(old(View()), id)
    {
      if id == 0 { return None; }
      var k := 0;
      while k < |continuations| && continuations[k].id != id
        invariant 0 <= k <= |continuations|
        invariant forall i :: 0 <= i < k ==> continuations[i].id != id
      {
        k := k + 1;
      }
      assert k == IndexOf(continuations, id);
      if k == |continuations| { return None; }
      removed := Some(continuations[k].token);
      continuations := continuations[..k] + continuations[k + 1..];
    }

    /** `claimed` is the vector swapped out under the lock; the caller invokes it afterwards. */
    method Finish(value: int, cancel: bool) returns (won: bool, claimed: seq<Entry>)
      requires Valid()
      modifies this
      ensures Valid()
      ensures (View(), won, claimed) == FinishRegion(old(View()), value, cancel)
    {
      if complete || cancelled { return false, []; }
      result := value;
      cancelled := cancel;
      complete := !cancel;
      won, claimed, continuations := true, continuations, [];
    }

    /** raz_rt_future_status and raz_rt_future_result_i64 read one consistent settlement. */
    method Poll() returns (status: int, value: Option<int>)
      requires Valid()
      ensures status == StatusOf(View().settlement)
      ensures value == if status == 1 then Some(View().settlement.value) else None
    {
      if cancelled { return -1, None; }
      if !complete { return 0, None; }
      return 1, Some(result);
    }
  }
}
