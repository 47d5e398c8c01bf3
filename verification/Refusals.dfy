/**
 * What a refused assign or move leaves behind. With auto-overwrite the occupant is deleted before the
 * commit or the move is tried, and a move relocates in RAM before its last operation is queued, so a
 * refusal does not always mean that nothing changed.
 */
module Refusals {
  import opened Config
  import opened StoreSpec
  import opened StoreLaws
  import opened MachineSpec

  /** What a transition announces first. */
  predicate Announces(c: Core, c': Core, notice: Notice) {
    |c.notes| < |c'.notes| && c'.notes[|c.notes|].notice == notice
  }

  /** The silent delete that precedes an overwrite goes ahead. */
  predicate Overwrites(c: Core, i: int)
    requires |c.store.slots| == MAX_SLOTS
  {
    && !c.store.IsEmpty(i) && (if IsNvs(i) then AUTO_OVERWRITE_NVS else AUTO_OVERWRITE_RAM)
    && !(IsNvs(i) && |c.queue| >= QUEUE_LEN)
  }

  lemma SayAnnounces(c: Core, returnTo: State, notice: Notice, slot: int, slot2: int, kind: FbKind, gate: Gate)
    requires |c.store.slots| == MAX_SLOTS
    ensures
      var c' := Say(c, returnTo, notice, slot, slot2, kind, gate);
      && c'.store == c.store && |c'.notes| > |c.notes|
      && c'.notes[|c.notes|] == Note(notice, slot, slot2, returnTo)
  {
  }

  /** The store as the silent delete leaves it. */
  lemma OverwriteClears(c: Core, i: int)
    requires |c.store.slots| == MAX_SLOTS && !c.store.IsEmpty(i)
    ensures
      var (c1, rc) := StoreDelete(c, i);
      && (rc == Ok || rc == DeleteDeferred <==> !(IsNvs(i) && |c.queue| >= QUEUE_LEN))
      && |c1.store.slots| == MAX_SLOTS && c1.notes == c.notes
      && (if rc == Ok || rc == DeleteDeferred
          then c1.store.IsEmpty(i) && forall j :: j != i ==> c1.store.View(j) == c.store.View(j)
          else c1 == c.(lost := c1.lost))
  {
  }

  /** A refused commit leaves the store alone. */
  lemma AssignEmptyAnnounces(c: Core, i: int, gate: Gate)
    requires |c.store.slots| == MAX_SLOTS
    ensures
      var c' := AssignEmpty(c, i, gate);
      && |c'.store.slots| == MAX_SLOTS
      && (DraftCommit(c.store, i).1 == Ok <==> Announces(c, c', Saved))
      && (!Announces(c, c', Saved) ==> c'.store == c.store)
  {
    hide Say, Total;
    var c1 := StoreCommit(c, i).0;
    SayAnnounces(c1, PendingAssign, ErrorTooLarge, i, -1, FbTooLarge, gate);
    SayAnnounces(c1, PendingAssign, ErrorSlotOccupied, i, -1, FbSlotFull, gate);
    SayAnnounces(c1.(m := c1.m.(postSave := i)), Idle, Saved, i, -1, FbSaved, gate);
  }

  /**
   * A refused assign keeps every stored macro exactly when no silent delete went ahead of it: the slot
   * reads empty, is not auto-overwritten, or the queue refused the delete. Otherwise the occupant, and
   * only the occupant, is gone.
   */
  lemma RefusedAssignKeepsIff(c: Core, i: int, gate: Gate)
    requires |c.store.slots| == MAX_SLOTS && !Announces(c, SlotAssign(c, i, gate), Saved)
    ensures
      var s' := SlotAssign(c, i, gate).store;
      && |s'.slots| == MAX_SLOTS
      && (SameViews(c.store, s') <==> !Overwrites(c, i))
      && (forall j :: j != i ==> s'.View(j) == c.store.View(j))
      && (Overwrites(c, i) ==> s'.View(i) == [])
  {
    hide Say, AssignEmpty, StoreDelete;
    var c0 := c.(armed := false);
    SayAnnounces(c0, PendingAssign, ErrorSlotOccupied, i, -1, FbSlotFull, gate);
    AssignEmptyAnnounces(c0, i, gate);
    if !c0.store.IsEmpty(i) {
      OverwriteClears(c0, i);
      var c1 := StoreDelete(c0, i).0;
      SayAnnounces(c1, PendingAssign, ErrorDeleteQueueFull, i, -1, FbDeleteQfull, gate);
      AssignEmptyAnnounces(c1, i, gate);
      assert Overwrites(c, i) ==> c1.store.View(i) != c.store.View(i);
    }
  }

  /** SLOT_OCCUPIED is true of the store it leaves unless the occupant was deleted or was never there. */
  lemma OccupiedIsTrueIff(c: Core, i: int, gate: Gate)
    requires |c.store.slots| == MAX_SLOTS && Announces(c, SlotAssign(c, i, gate), ErrorSlotOccupied)
    ensures
      var s' := SlotAssign(c, i, gate).store;
      |s'.slots| == MAX_SLOTS && (!s'.IsEmpty(i) <==> !c.store.IsEmpty(i) && !AutoOverwrite(i))
  {
    hide Say, AssignEmpty, StoreDelete;
    var c0 := c.(armed := false);
    SayAnnounces(c0, PendingAssign, ErrorSlotOccupied, i, -1, FbSlotFull, gate);
    AssignEmptyAnnounces(c0, i, gate);
    if !c0.store.IsEmpty(i) {
      OverwriteClears(c0, i);
      var c1 := StoreDelete(c0, i).0;
      SayAnnounces(c1, PendingAssign, ErrorDeleteQueueFull, i, -1, FbDeleteQfull, gate);
      AssignEmptyAnnounces(c1, i, gate);
    }
  }

  // ---- moves -----------------------------------------------------------------------------------------

  /** The store refuses before it relocates: the macro is too large for flash, or its save finds no room. */
  predicate RefusedEarly(c: Core, src: int, dst: int)
    requires |c.store.slots| == MAX_SLOTS
  {
    IsNvs(dst) && (|c.store.View(src)| > MAX_EVENTS_NVS || |c.queue| >= QUEUE_LEN)
  }

  /** A move into an empty slot: kept whole, or relocated whatever is announced. */
  lemma MoveIntoAnnounces(c: Core, src: int, dst: int, gate: Gate)
    requires c.store.Valid() && src != dst && IsSlot(dst) && !c.store.IsEmpty(src) && c.store.IsEmpty(dst)
    ensures
      var c' := MoveInto(c, src, dst, gate);
      && |c'.store.slots| == MAX_SLOTS
      && (RefusedEarly(c, src, dst) ==> SameViews(c.store, c'.store) && !Announces(c, c', Moved))
      && (!RefusedEarly(c, src, dst) ==> c'.store.View(src) == [] && c'.store.View(dst) == c.store.View(src))
      && (forall j :: j != src && j != dst ==> c'.store.View(j) == c.store.View(j))
  {
    hide Say, Total;
    var (c1, rc) := StoreMove(c.(m := c.m.(moveSource := -1), armed := false), src, dst);
    SayAnnounces(c1, Idle, ErrorTooLarge, dst, -1, FbTooLarge, gate);
    SayAnnounces(c1, Idle, ErrorSaveQueueFull, dst, -1, FbSaveQfull, gate);
    SayAnnounces(c1, Idle, ErrorDeleteQueueFull, src, -1, FbDeleteQfull, gate);
    SayAnnounces(c1, Idle, Moved, dst, src, FbMoved, gate);
  }

  /**
   * A move that does not announce MOVED keeps every stored macro exactly when the target was occupied
   * and no silent delete went ahead, or was empty and the store refused before relocating. A move that
   * announces a full delete queue has in fact moved the macro in RAM.
   */
  lemma RefusedMoveKeepsIff(c: Core, i: int, gate: Gate)
    requires c.store.Valid() && IsSlot(i)
    requires c.m.moveSource >= 0 && c.m.moveSource != i && !c.store.IsEmpty(c.m.moveSource)
    requires !Announces(c, SlotMove(c, i, gate), Moved)
    ensures
      var s', src := SlotMove(c, i, gate).store, c.m.moveSource;
      && |s'.slots| == MAX_SLOTS
      && (SameViews(c.store, s') <==> if c.store.IsEmpty(i) then RefusedEarly(c, src, i) else !Overwrites(c, i))
      && (forall j :: j != i && j != src ==> s'.View(j) == c.store.View(j))
      && (s'.View(src) == c.store.View(src) || (s'.View(src) == [] && s'.View(i) == c.store.View(src)))
  {
    hide Say, MoveInto, StoreDelete, Total;
    var src := c.m.moveSource;
    SayAnnounces(c, MovePending, ErrorSlotOccupied, i, -1, FbSlotFull, gate);
    if c.store.IsEmpty(i) {
      MoveIntoAnnounces(c, src, i, gate);
      assert SlotMove(c, i, gate).store.View(src) == [] ==> !SameViews(c.store, SlotMove(c, i, gate).store);
    } else {
      DeleteKeepsValid(c, i);
      OverwriteClears(c, i);
      var c1 := StoreDelete(c, i).0;
      SayAnnounces(c1, MovePending, ErrorDeleteQueueFull, i, -1, FbDeleteQfull, gate);
      if Overwrites(c, i) {
        OverwrittenMove(c, c1, src, i, gate);
      }
    }
  }

  lemma DeleteKeepsValid(c: Core, i: int)
    requires c.store.Valid()
    ensures StoreDelete(c, i).0.store.Valid()
  {
    hide Total;
    StepKeepsValid(c.store, c.queue, DeleteOp(i));
  }

  lemma OverwrittenMove(c: Core, c1: Core, src: int, dst: int, gate: Gate)
    requires c.store.Valid() && c1.store.Valid() && src != dst && IsSlot(dst) && !c.store.IsEmpty(src)
    requires !c.store.IsEmpty(dst) && c1.store.IsEmpty(dst)
    requires forall j :: j != dst ==> c1.store.View(j) == c.store.View(j)
    ensures
      var s' := MoveInto(c1, src, dst, gate).store;
      && |s'.slots| == MAX_SLOTS && !SameViews(c.store, s')
      && (forall j :: j != src && j != dst ==> s'.View(j) == c.store.View(j))
      && (s'.View(src) == c.store.View(src) || (s'.View(src) == [] && s'.View(dst) == c.store.View(src)))
  {
    hide MoveInto, Total;
    assert c1.store.View(src) == c.store.View(src);
    MoveIntoAnnounces(c1, src, dst, gate);
    var s' := MoveInto(c1, src, dst, gate).store;
    if RefusedEarly(c1, src, dst) {
      assert s'.View(dst) == c1.store.View(dst) != c.store.View(dst);
    } else {
      assert s'.View(src) != c.store.View(src);
    }
  }
}
