/**
 Slot ownership of an async frame: cleanups and storage blocks.

 Every armed cleanup and every allocated block gets a name. The history counts how often a
 cleanup ran or was dropped, and how often a block was freed by the frame or handed out.
 */
module Slots {
  datatype SlotLifecycle = Empty | Initialized | ProjectedArmed | ProjectedTransferred

  /** `arming` and `block` name the cleanup and the storage this slot is responsible for. */
  datatype Slot = Slot(value: int, cleanup: int, projected: int, initialized: bool, ownsBytes: bool,
    lifecycle: SlotLifecycle,
                       arming: nat, block: nat)

  const EmptySlot := Slot(0, 0, 0, false, false, Empty, 0, 0)

  /** How often a cleanup ran or was dropped; how often a block was freed or taken. */
  datatype Fate = Fate(done: nat, released: nat)

  datatype Frame = Frame(slots: seq<Slot>, active: bool, armings: seq<Fate>, blocks: seq<Fate>)

  datatype Op =
    | Store(slot: int, value: int)
    | StoreOwned(slot: int, value: int, cleanup: int)
    | Allocate(slot: int, size: int, alignment: int, cleanup: int, storage: int)
    | AllocateProjected(slot: int, size: int, alignment: int, cleanup: int, projections: int, storage: int)
    | StoreBytes(slot: int, source: int, size: int, alignment: int, cleanup: int, storage: int)
    | Take(slot: int)
    | Transfer(slot: int)
    | Disarm(slot: int)
    | Terminate

  /** The slot still has a cleanup to run. */
  predicate HasCleanup(s: Slot) {
    s.initialized && (s.projected != 0 || s.cleanup != 0)
  }

  /** The slot still has a block to free. */
  predicate HasBlock(s: Slot) {
    s.initialized && s.ownsBytes && s.value != 0
  }

  function Bump(fates: seq<Fate>, id: nat, released: bool): seq<Fate> {
    if id >= |fates| then fates
    else
      var fate := fates[id];
      fates[id := if released then fate.(released := fate.released + 1) else fate.(done := fate.done + 1)]
  }

  // ---------- the operations ----------

  /** clear_async_slot, and one round of the destructor: runs the cleanup, frees the block, empties the slot. */
  function Cleared(f: Frame, i: nat): Frame
    requires i < |f.slots|
  {
    var s := f.slots[i];
    Frame(f.slots[i := EmptySlot], f.active,
          if HasCleanup(s) then Bump(f.armings, s.arming, false) else f.armings,
          if HasBlock(s) then Bump(f.blocks, s.block, false) else f.blocks)
  }

  /** Puts a value into an empty slot, arming a cleanup and taking a block where there is one. */
  function Filled(f: Frame, i: nat, value: int, cleanup: int, projected: int, owns: bool,
          lifecycle: SlotLifecycle): Frame
    requires i < |f.slots|
  {
    var arms := cleanup != 0 || projected != 0;
    Frame(f.slots[i := Slot(value, cleanup, projected, true, owns, lifecycle, |f.armings|, |f.blocks|)], f.active,
          if arms then f.armings + [Fate(0, 0)] else f.armings,
          if owns then f.blocks + [Fate(0, 0)] else f.blocks)
  }

  /** take: the value leaves the frame, with its block and without running the cleanup. */
  function Taken(f: Frame, i: nat): Frame
    requires i < |f.slots|
  {
    var s := f.slots[i];
    Frame(f.slots[i := EmptySlot], f.active,
          if HasCleanup(s) then Bump(f.armings, s.arming, true) else f.armings,
          if HasBlock(s) then Bump(f.blocks, s.block, true) else f.blocks)
  }

  /** The cleanup is dropped; the block stays with the frame. */
  function Disarmed(f: Frame, i: nat, lifecycle: SlotLifecycle): Frame
    requires i < |f.slots|
  {
    var s := f.slots[i];
    Frame(f.slots[i := s.(cleanup := 0, projected := 0, lifecycle := lifecycle)], f.active,
          if HasCleanup(s) then Bump(f.armings, s.arming, true) else f.armings, f.blocks)
  }

  predicate Accepts(f: Frame, slot: int) {
    f.active && 0 <= slot < |f.slots|
  }

  predicate CanAllocate(f: Frame, slot: int, size: int, alignment: int) {
    Accepts(f, slot) && size > 0 && alignment > 0
  }

  /** An operation on a live frame; refused operations change nothing. Storage addresses are never null. */
  function Step(f: Frame, op: Op): Frame
    requires op.Allocate? || op.AllocateProjected? || op.StoreBytes? ==> op.storage != 0
  {
    match op
    case Store(i, value) => if Accepts(f, i) then Filled(Cleared(f, i), i, value, 0, 0, false, Initialized) else f
    case StoreOwned(i, value, cleanup) =>
      if Accepts(f, i) then Filled(Cleared(f, i), i, value, cleanup, 0, false, Initialized) else f
    case Allocate(i, size, alignment, cleanup, storage) =>
      if CanAllocate(f, i, size, alignment) then Filled(Cleared(f, i), i, storage, cleanup, 0, true, Initialized) else f
    case AllocateProjected(i, size, alignment, cleanup, projections, storage) =>
      if CanAllocate(f, i, size, alignment) && projections > 0
      then Filled(Cleared(f, i), i, storage, 0, cleanup, true, ProjectedArmed) else f
    case StoreBytes(i, source, size, alignment, cleanup, storage) =>
      if source != 0 && CanAllocate(f, i, size, alignment)
      then Filled(Cleared(f, i), i, storage, cleanup, 0, true, Initialized) else f
    case Take(i) => if Accepts(f, i) then Taken(f, i) else f
    case Transfer(i) =>
      if Accepts(f, i) && f.slots[i].initialized && f.slots[i].ownsBytes && f.slots[i].projected != 0
        && f.slots[i].lifecycle == ProjectedArmed
      then Disarmed(f, i, ProjectedTransferred) else f
    case Disarm(i) =>
      if Accepts(f, i)
        then Disarmed(f, i, if f.slots[i].ownsBytes
          && f.slots[i].initialized then ProjectedTransferred else f.slots[i].lifecycle) else f
    case Terminate => f.(active := false)
  }

  /** The destructor clears the slots from the last to the first. */
  function Destroyed(f: Frame, n: nat): Frame
    requires n <= |f.slots|
    decreases n
  {
    if n == 0 then f else Destroyed(Cleared(f, n - 1), n - 1)
  }

  // ---------- conservation ----------

  /** Number of slots that are responsible for arming `id`. */
  ghost function Armed(slots: seq<Slot>, id: nat): nat {
    if slots == [] then 0
    else
      Armed(slots[..|slots| - 1], id) + if HasCleanup(slots[|slots| - 1]) && slots[|slots| - 1].arming == id then 1
        else 0
  }

  ghost function Owned(slots: seq<Slot>, id: nat): nat {
    if slots == [] then 0
    else
      Owned(slots[..|slots| - 1], id) + if HasBlock(slots[|slots| - 1]) && slots[|slots| - 1].block == id then 1 else 0
  }

  ghost predicate ArmingsConserved(slots: seq<Slot>, armings: seq<Fate>) {
    && (forall id :: 0 <= id < |armings| ==> armings[id].done + armings[id].released + Armed(slots, id) == 1)
    && (forall i :: 0 <= i < |slots| && HasCleanup(slots[i]) ==> slots[i].arming < |armings|)
  }

  ghost predicate BlocksConserved(slots: seq<Slot>, blocks: seq<Fate>) {
    && (forall id :: 0 <= id < |blocks| ==> blocks[id].done + blocks[id].released + Owned(slots, id) == 1)
    && (forall i :: 0 <= i < |slots| && HasBlock(slots[i]) ==> slots[i].block < |blocks|)
  }

  /** Every cleanup is armed in one slot, or ran once, or was dropped once; every block likewise. */
  ghost predicate Conserved(f: Frame) {
    ArmingsConserved(f.slots, f.armings) && BlocksConserved(f.slots, f.blocks)
  }

  lemma {:induction false} ArmedUpdate(slots: seq<Slot>, i: nat, s: Slot, id: nat)
    requires i < |slots|
    ensures Armed(slots[i := s], id) + (if HasCleanup(slots[i]) && slots[i].arming == id then 1 else 0) ==
      Armed(slots, id) + (if HasCleanup(s) && s.arming == id then 1 else 0)
  {
    var front, n := slots[..|slots| - 1], |slots| - 1;
    if i < n {
      ArmedUpdate(front, i, s, id);
      assert slots[i := s][..n] == front[i := s];
    } else {
      assert slots[i := s][..n] == front;
    }
  }

  lemma {:induction false} OwnedUpdate(slots: seq<Slot>, i: nat, s: Slot, id: nat)
    requires i < |slots|
    ensures Owned(slots[i := s], id) + (if HasBlock(slots[i]) && slots[i].block == id then 1 else 0) ==
      Owned(slots, id) + (if HasBlock(s) && s.block == id then 1 else 0)
  {
    var front, n := slots[..|slots| - 1], |slots| - 1;
    if i < n {
      OwnedUpdate(front, i, s, id);
      assert slots[i := s][..n] == front[i := s];
    } else {
      assert slots[i := s][..n] == front;
    }
  }

  /** Nothing is responsible for a name that has not been given yet. */
  lemma {:induction false} FreshArming(slots: seq<Slot>, n: nat)
    requires forall i :: 0 <= i < |slots| && HasCleanup(slots[i]) ==> slots[i].arming < n
    ensures Armed(slots, n) == 0
  {
    if slots != [] { FreshArming(slots[..|slots| - 1], n); }
  }

  lemma {:induction false} FreshBlock(slots: seq<Slot>, n: nat)
    requires forall i :: 0 <= i < |slots| && HasBlock(slots[i]) ==> slots[i].block < n
    ensures Owned(slots, n) == 0
  {
    if slots != [] { FreshBlock(slots[..|slots| - 1], n); }
  }

  /** A slot gives up its cleanup, which is then counted once. */
  lemma GiveUpCleanup(slots: seq<Slot>, armings: seq<Fate>, i: nat, s: Slot, released: bool)
    requires ArmingsConserved(slots, armings) && i < |slots| && !HasCleanup(s)
    ensures ArmingsConserved(slots[i := s], if HasCleanup(slots[i]) then Bump(armings, slots[i].arming,
      released) else armings)
  {
    var after := if HasCleanup(slots[i]) then Bump(armings, slots[i].arming, released) else armings;
    forall id | 0 <= id < |after| ensures after[id].done + after[id].released + Armed(slots[i := s], id) == 1 {
      ArmedUpdate(slots, i, s, id);
    }
  }

  lemma GiveUpBlock(slots: seq<Slot>, blocks: seq<Fate>, i: nat, s: Slot, released: bool)
    requires BlocksConserved(slots, blocks) && i < |slots| && !HasBlock(s)
    ensures BlocksConserved(slots[i := s], if HasBlock(slots[i]) then Bump(blocks, slots[i].block,
      released) else blocks)
  {
    var after := if HasBlock(slots[i]) then Bump(blocks, slots[i].block, released) else blocks;
    forall id | 0 <= id < |after| ensures after[id].done + after[id].released + Owned(slots[i := s], id) == 1 {
      OwnedUpdate(slots, i, s, id);
    }
  }

  /** A slot without a cleanup takes one under a fresh name, or none. */
  lemma TakeOnCleanup(slots: seq<Slot>, armings: seq<Fate>, i: nat, s: Slot)
    requires ArmingsConserved(slots, armings) && i < |slots| && !HasCleanup(slots[i])
    requires HasCleanup(s) ==> s.arming == |armings|
    ensures ArmingsConserved(slots[i := s], if HasCleanup(s) then armings + [Fate(0, 0)] else armings)
  {
    var after := if HasCleanup(s) then armings + [Fate(0, 0)] else armings;
    FreshArming(slots, |armings|);
    forall id | 0 <= id < |after| ensures after[id].done + after[id].released + Armed(slots[i := s], id) == 1 {
      ArmedUpdate(slots, i, s, id);
    }
  }

  lemma TakeOnBlock(slots: seq<Slot>, blocks: seq<Fate>, i: nat, s: Slot)
    requires BlocksConserved(slots, blocks) && i < |slots| && !HasBlock(slots[i])
    requires HasBlock(s) ==> s.block == |blocks|
    ensures BlocksConserved(slots[i := s], if HasBlock(s) then blocks + [Fate(0, 0)] else blocks)
  {
    var after := if HasBlock(s) then blocks + [Fate(0, 0)] else blocks;
    FreshBlock(slots, |blocks|);
    forall id | 0 <= id < |after| ensures after[id].done + after[id].released + Owned(slots[i := s], id) == 1 {
      OwnedUpdate(slots, i, s, id);
    }
  }

  lemma ClearKeeps(f: Frame, i: nat)
    requires Conserved(f) && i < |f.slots|
    ensures Conserved(Cleared(f, i))
  {
    GiveUpCleanup(f.slots, f.armings, i, EmptySlot, false);
    GiveUpBlock(f.slots, f.blocks, i, EmptySlot, false);
  }

  lemma FillKeeps(f: Frame, i: nat, value: int, cleanup: int, projected: int, owns: bool, lifecycle: SlotLifecycle)
    requires Conserved(f) && i < |f.slots| && f.slots[i] == EmptySlot && (owns ==> value != 0)
    ensures Conserved(Filled(f, i, value, cleanup, projected, owns, lifecycle))
  {
    var s := Filled(f, i, value, cleanup, projected, owns, lifecycle).slots[i];
    TakeOnCleanup(f.slots, f.armings, i, s);
    TakeOnBlock(f.slots, f.blocks, i, s);
  }

  lemma TakeKeeps(f: Frame, i: nat)
    requires Conserved(f) && i < |f.slots|
    ensures Conserved(Taken(f, i))
  {
    GiveUpCleanup(f.slots, f.armings, i, EmptySlot, true);
    GiveUpBlock(f.slots, f.blocks, i, EmptySlot, true);
  }

  lemma DisarmKeeps(f: Frame, i: nat, lifecycle: SlotLifecycle)
    requires Conserved(f) && i < |f.slots|
    ensures Conserved(Disarmed(f, i, lifecycle))
  {
    var s := f.slots[i].(cleanup := 0, projected := 0, lifecycle := lifecycle);
    GiveUpCleanup(f.slots, f.armings, i, s, true);
    forall id | 0 <= id < |f.blocks|
      ensures f.blocks[id].done + f.blocks[id].released + Owned(f.slots[i := s], id) == 1 {
      OwnedUpdate(f.slots, i, s, id);
    }
  }

  /** Every operation keeps the books balanced. */
  lemma StepKeeps(f: Frame, op: Op)
    requires Conserved(f) && (op.Allocate? || op.AllocateProjected? || op.StoreBytes? ==> op.storage != 0)
    ensures Conserved(Step(f, op))
  {
    if op.Terminate? || !Accepts(f, op.slot) { return; }
    var i := op.slot;
    match op
    case Take(_) => TakeKeeps(f, i);
    case Transfer(_) => DisarmKeeps(f, i, ProjectedTransferred);
    case Disarm(_) => DisarmKeeps(f, i, Step(f, op).slots[i].lifecycle);
    case Store(_, value) =>
      ClearKeeps(f, i);
      FillKeeps(Cleared(f, i), i, value, 0, 0, false, Initialized);
    case StoreOwned(_, value, cleanup) =>
      ClearKeeps(f, i);
      FillKeeps(Cleared(f, i), i, value, cleanup, 0, false, Initialized);
    case Allocate(_, _, _, cleanup, storage) =>
      ClearKeeps(f, i);
      FillKeeps(Cleared(f, i), i, storage, cleanup, 0, true, Initialized);
    case AllocateProjected(_, _, _, cleanup, _, storage) =>
      ClearKeeps(f, i);
      FillKeeps(Cleared(f, i), i, storage, 0, cleanup, true, ProjectedArmed);
    case StoreBytes(_, _, _, _, cleanup, storage) =>
      ClearKeeps(f, i);
      FillKeeps(Cleared(f, i), i, storage, cleanup, 0, true, Initialized);
  }

  lemma {:induction false} DestroyKeeps(f: Frame, n: nat)
    requires Conserved(f) && n <= |f.slots|
    ensures Conserved(Destroyed(f, n))
    decreases n
  {
    if n > 0 {
      ClearKeeps(f, n - 1);
      DestroyKeeps(Cleared(f, n - 1), n - 1);
    }
  }

  lemma {:induction false} DestroyEmpties(f: Frame, n: nat)
    requires n <= |f.slots|
    ensures |Destroyed(f, n).slots| == |f.slots|
    ensures forall i :: 0 <= i < |f.slots| ==> Destroyed(f, n).slots[i] == if i < n then EmptySlot else f.slots[i]
    decreases n
  {
    if n > 0 { DestroyEmpties(Cleared(f, n - 1), n - 1); }
  }

  lemma {:induction false} NothingHeld(slots: seq<Slot>, id: nat)
    requires forall i :: 0 <= i < |slots| ==> slots[i] == EmptySlot
    ensures Armed(slots, id) == 0 && Owned(slots, id) == 0
  {
    if slots != [] { NothingHeld(slots[..|slots| - 1], id); }
  }

  // ---------- whole lives ----------

  /** raz_rt_async_frame_create. */
  function Created(n: nat): Frame {
    Frame(seq(n, i requires 0 <= i => EmptySlot), true, [], [])
  }

  ghost predicate StorageNonNull(ops: seq<Op>) {
    forall i :: 0 <= i < |ops| && (ops[i].Allocate? || ops[i].AllocateProjected? || ops[i].StoreBytes?) ==>
      ops[i].storage != 0
  }

  function After(f: Frame, ops: seq<Op>): Frame
    requires StorageNonNull(ops)
  {
    if ops == [] then f else Step(After(f, ops[..|ops| - 1]), ops[|ops| - 1])
  }

  lemma {:induction false} RunKeeps(n: nat, ops: seq<Op>)
    requires StorageNonNull(ops)
    ensures Conserved(After(Created(n), ops))
  {
    if ops == [] {
      var f := Created(n);
      assert forall i :: 0 <= i < |f.slots| ==> !HasCleanup(f.slots[i]) && !HasBlock(f.slots[i]);
    } else {
      RunKeeps(n, ops[..|ops| - 1]);
      StepKeeps(After(Created(n), ops[..|ops| - 1]), ops[|ops| - 1]);
    }
  }

  /**
   Over any sequence of operations followed by destruction, every armed cleanup ran exactly once
   or was dropped exactly once, never both, and every allocated block was freed exactly once by
   the frame or handed out exactly once.
   */
  lemma OwnershipConserved(n: nat, ops: seq<Op>)
    requires StorageNonNull(ops)
    ensures var before := After(Created(n), ops); var f := Destroyed(before, |before.slots|);
      && (forall id :: 0 <= id < |f.armings| ==> f.armings[id].done + f.armings[id].released == 1)
      && (forall id :: 0 <= id < |f.blocks| ==> f.blocks[id].done + f.blocks[id].released == 1)
  {
    var before := After(Created(n), ops);
    var f := Destroyed(before, |before.slots|);
    RunKeeps(n, ops);
    DestroyKeeps(before, |before.slots|);
    DestroyEmpties(before, |before.slots|);
    forall id: nat | id < |f.armings| ensures f.armings[id].done + f.armings[id].released == 1 {
      NothingHeld(f.slots, id);
    }
    forall id: nat | id < |f.blocks| ensures f.blocks[id].done + f.blocks[id].released == 1 {
      NothingHeld(f.slots, id);
    }
  }

  /** Only take, transfer and disarm drop a cleanup without running it, and only take hands out a block. */
  lemma ReleasedOnlyOnRequest(f: Frame, op: Op, id: nat)
    requires op.Allocate? || op.AllocateProjected? || op.StoreBytes? ==> op.storage != 0
    ensures |f.armings| <= |Step(f, op).armings| && |f.blocks| <= |Step(f, op).blocks|
    ensures id < |f.armings| && Step(f, op).armings[id].released != f.armings[id].released ==>
      op.Take? || op.Transfer? || op.Disarm?
    ensures id < |f.blocks| && Step(f, op).blocks[id].released != f.blocks[id].released ==> op.Take?
  {
  }

  lemma {:induction false} DestructionReleasesNothing(f: Frame, n: nat, id: nat)
    requires n <= |f.slots|
    ensures id < |f.armings| ==>
      id < |Destroyed(f, n).armings| && Destroyed(f, n).armings[id].released == f.armings[id].released
    ensures id < |f.blocks| ==>
      id < |Destroyed(f, n).blocks| && Destroyed(f, n).blocks[id].released == f.blocks[id].released
    decreases n
  {
    if n > 0 { DestructionReleasesNothing(Cleared(f, n - 1), n - 1, id); }
  }

  // ---------- the frame as it is updated in place ----------

  class AsyncFrame {
    var slots: seq<Slot>
    var active: bool
    // History: read by no operation to decide what to do.
    var armings: seq<Fate>
    var blocks: seq<Fate>

    ghost function View(): Frame
      reads this
    {
      Frame(slots, active, armings, blocks)
    }

    constructor (n: nat)
      ensures View() == Created(n)
    {
      slots := seq(n, i requires 0 <= i => EmptySlot);
      active := true;
      armings, blocks := [], [];
    }

    method ClearSlot(i: nat)
      requires i < |slots|
      modifies this
      ensures View() == Cleared(old(View()), i)
    {
      var s := slots[i];
      if s.initialized && s.projected != 0 {
        armings := Bump(armings, s.arming, false);
      } else if s.initialized && s.cleanup != 0 {
        armings := Bump(armings, s.arming, false);
      }
      if s.initialized && s.ownsBytes && s.value != 0 {
        blocks := Bump(blocks, s.block, false);
      }
      slots := slots[i := EmptySlot];
    }

    method Fill(i: nat, value: int, cleanup: int, projected: int, owns: bool, lifecycle: SlotLifecycle)
      requires i < |slots|
      modifies this
      ensures View() == Filled(old(View()), i, value, cleanup, projected, owns, lifecycle)
    {
      slots := slots[i := Slot(value, cleanup, projected, true, owns, lifecycle, |armings|, |blocks|)];
      if cleanup != 0 || projected != 0 { armings := armings + [Fate(0, 0)]; }
      if owns { blocks := blocks + [Fate(0, 0)]; }
    }

    method StoreValue(slot: int, value: int)
      modifies this
      ensures View() == Step(old(View()), Store(slot, value))
    {
      if !active || slot < 0 || slot >= |slots| { return; }
      ClearSlot(slot);
      Fill(slot, value, 0, 0, false, Initialized);
    }

    method StoreOwnedValue(slot: int, value: int, cleanup: int)
      modifies this
      ensures View() == Step(old(View()), StoreOwned(slot, value, cleanup))
    {
      if !active || slot < 0 || slot >= |slots| { return; }
      ClearSlot(slot);
      Fill(slot, value, cleanup, 0, false, Initialized);
    }

    /** `storage` is the block the allocator returns; the result is null when the request is refused. */
    method AllocateOwnedBytes(slot: int, size: int, alignment: int, cleanup: int, storage: int) returns (r: int)
      requires storage != 0
      modifies this
      ensures View() == Step(old(View()), Allocate(slot, size, alignment, cleanup, storage))
      ensures r == if CanAllocate(old(View()), slot, size, alignment) then storage else 0
    {
      if !active || slot < 0 || size <= 0 || alignment <= 0 || slot >= |slots| { return 0; }
      ClearSlot(slot);
      Fill(slot, storage, cleanup, 0, true, Initialized);
      r := storage;
    }

    method AllocateProjectedBytes(slot: int, size: int, alignment: int, cleanup: int, projections: int, storage: int)
      returns (r: int)
      requires storage != 0
      modifies this
      ensures View() == Step(old(View()), AllocateProjected(slot, size, alignment, cleanup, projections, storage))
      ensures r == if CanAllocate(old(View()), slot, size, alignment) && projections > 0 then storage else 0
    {
      if !active || slot < 0 || size <= 0 || alignment <= 0 || projections <= 0 || slot >= |slots| { return 0; }
      ClearSlot(slot);
      Fill(slot, storage, 0, cleanup, true, ProjectedArmed);
      r := storage;
    }

    method StoreOwnedBytes(slot: int, source: int, size: int, alignment: int, cleanup: int, storage: int)
      requires storage != 0
      modifies this
      ensures View() == Step(old(View()), StoreBytes(slot, source, size, alignment, cleanup, storage))
    {
      if !active || source == 0 || slot < 0 || size <= 0 || alignment <= 0 || slot >= |slots| { return; }
      ClearSlot(slot);
      Fill(slot, storage, cleanup, 0, true, Initialized);
    }

    method TakeValue(slot: int) returns (value: int)
      modifies this
      ensures View() == Step(old(View()), Take(slot))
      ensures value == if Accepts(old(View()), slot) then old(slots)[slot].value else 0
    {
      if !active || slot < 0 || slot >= |slots| { return 0; }
      var s := slots[slot];
      value := s.value;
      if HasCleanup(s) { armings := Bump(armings, s.arming, true); }
      if HasBlock(s) { blocks := Bump(blocks, s.block, true); }
      slots := slots[slot := EmptySlot];
    }

    /** Drops the projected cleanup; the caller gets the address, the frame keeps the block. */
    method TransferProjected(slot: int) returns (value: int)
      modifies this
      ensures View() == Step(old(View()), Transfer(slot))
      ensures value != 0 ==>
        Accepts(old(View()), slot) && value == old(slots)[slot].value && HasCleanup(old(slots)[slot])
    {
      if !active || slot < 0 || slot >= |slots| { return 0; }
      var s := slots[slot];
      if !s.initialized || !s.ownsBytes || s.projected == 0 || s.lifecycle != ProjectedArmed { return 0; }
      armings := Bump(armings, s.arming, true);
      slots := slots[slot := s.(cleanup := 0, projected := 0, lifecycle := ProjectedTransferred)];
      value := s.value;
    }

    method DisarmSlot(slot: int)
      modifies this
      ensures View() == Step(old(View()), Disarm(slot))
    {
      if !active || slot < 0 || slot >= |slots| { return; }
      var s := slots[slot];
      if HasCleanup(s) { armings := Bump(armings, s.arming, true); }
      var lifecycle := if s.ownsBytes && s.initialized then ProjectedTransferred else s.lifecycle;
      slots := slots[slot := s.(cleanup := 0, projected := 0, lifecycle := lifecycle)];
    }

    /** The slot loop of the destructor, from the last slot to the first. */
    method Destroy()
      modifies this
      ensures View() == Destroyed(old(View()), old(|slots|))
    {
      var n := |slots|;
      while n > 0
        invariant 0 <= n <= |slots| == old(|slots|) && Destroyed(View(), n) == Destroyed(old(View()), old(|slots|))
      {
        ClearSlot(n - 1);
        n := n - 1;
      }
    }
  }
}
