/** Every step of the composed firmware keeps the invariants of System.dfy. */
module SystemProofs {
  import opened Config
  import opened StoreSpec
  import opened StoreLaws
  import opened Storage
  import opened MachineSpec
  import opened System

  // ---- the persist owed after a cue ----------------------------------------------------

  lemma SaveAgrees(s: Store, q: seq<Op>, lost: set<int>, f: Flash, i: int, gen: nat)
    requires |s.slots| == MAX_SLOTS && IsNvs(i) && !s.IsEmpty(i) && Agrees(s, q, lost, i, f)
    ensures Agrees(s, q + [Save(i, s.slots[i].events, gen)], lost - {i}, -1, f)
  {
    forall j | IsNvs(j) && j !in lost - {i}
      ensures Final(f, q + [Save(i, s.slots[i].events, gen)], j) == Expect(s, j)
    {
      FinalAppend(f, q, Save(i, s.slots[i].events, gen), j);
    }
  }

  /** Nothing owed any more, and perhaps one slot more lost. */
  lemma OwedNoMore(s: Store, q: seq<Op>, lost: set<int>, lost': set<int>, i: int, f: Flash, cs: seq<Completion>)
    requires |s.slots| == MAX_SLOTS && lost <= lost' && (IsNvs(i) ==> i in lost')
    ensures Agrees(s, q, lost, i, f) ==> Agrees(s, q, lost', -1, f)
    ensures Stamped(s, q, lost, i, cs) ==> Stamped(s, q, lost', -1, cs)
  {
    hide Lone, SavesFit, Final;
  }

  lemma SaveStamped(s: Store, q: seq<Op>, lost: set<int>, i: int, cs: seq<Completion>)
    requires |s.slots| == MAX_SLOTS && IsNvs(i) && !s.IsEmpty(i) && |s.slots[i].events| <= MAX_EVENTS_NVS
    requires |q| < QUEUE_LEN && Stamped(s, q, lost, i, cs)
    ensures Stamped(s, q + [Save(i, s.slots[i].events, s.slots[i].gen)], lost - {i}, -1, cs)
  {
    hide Lone, SavesFit;
    SaveLone(s, q, cs, Save(i, s.slots[i].events, s.slots[i].gen));
    SaveFits(q, Save(i, s.slots[i].events, s.slots[i].gen));
  }

  lemma SaveFits(q: seq<Op>, op: Op)
    requires SavesFit(q) && (op.Save? ==> 0 < |op.events| <= MAX_EVENTS_NVS)
    ensures SavesFit(q + [op])
  {
  }

  lemma PersistKeeps(c: Core, i: int, f: Flash, cs: seq<Completion>)
    requires |c.store.slots| == MAX_SLOTS && i >= 0 && !c.store.IsEmpty(i)
    requires Agrees(c.store, c.queue, c.lost, i, f) && Stamped(c.store, c.queue, c.lost, i, cs)
    ensures
      var c' := StorePersist(c, i).0;
      c'.store == c.store && Agrees(c'.store, c'.queue, c'.lost, -1, f) && Stamped(c'.store, c'.queue, c'.lost, -1, cs)
  {
    hide Agrees, Stamped;
    var (c', rc) := StorePersist(c, i);
    if IsNvs(i) && rc == Ok {
      SaveAgrees(c.store, c.queue, c.lost, f, i, c.store.slots[i].gen);
      SaveStamped(c.store, c.queue, c.lost, i, cs);
    } else {
      OwedNoMore(c.store, c.queue, c.lost, c'.lost, i, f, cs);
    }
  }

  /** A save of a slot none of whose deletes under way carries its stamp. */
  lemma SaveLone(s: Store, q: seq<Op>, cs: seq<Completion>, op: Op)
    requires |s.slots| == MAX_SLOTS && Lone(s, q, cs) && op.Save?
    requires forall k :: 0 <= k < |q| && q[k].Delete? && q[k].slot == op.slot ==> Spent(s, q[k].slot, q[k].gen)
    ensures Lone(s, q + [op], cs)
  {
  }

  lemma PersistRecoverable(c: Core, i: int, f: Flash)
    requires |c.store.slots| == MAX_SLOTS && !c.store.IsEmpty(i) && Recoverable(c.store, c.queue, c.unsaved, f)
    ensures var c' := StorePersist(c, i).0; Recoverable(c'.store, c'.queue, c'.unsaved, f)
  {
    AppendRecoverable(c.store, c.queue, c.unsaved, f, Save(i, c.store.slots[i].events, c.store.slots[i].gen));
  }

  /** An operation on a slot that is not leaving, or on none. */
  lemma AppendRecoverable(s: Store, q: seq<Op>, unsaved: set<int>, f: Flash, op: Op)
    requires |s.slots| == MAX_SLOTS && Recoverable(s, q, unsaved, f)
    requires !op.SaveKnobs? && IsNvs(op.slot) ==> !s.slots[op.slot].pending
    ensures Recoverable(s, q + [op], unsaved, f)
  {
    forall j | IsNvs(j) && s.slots[j].pending && j !in unsaved
      ensures Held(f, q + [op], j, s.slots[j].gen) == Present(s.slots[j].events)
    {
      HeldAppend(f, q, op, j, s.slots[j].gen);
    }
  }

  // ---- cues ---------------------------------------------------------------------------

  lemma FinishKeeps(c: Core, gate: Gate, f: Flash, cs: seq<Completion>)
    requires c.m.state == TypingFeedback && MachineShape(c.m)
    requires Body(c.m.returnState, c.m.moveSource, c.m.postSave, c, f, cs)
    ensures Inv(World(TypingFinished(c, gate), f, cs))
    ensures Deep(TypingFinished(c, gate).m) == c.m.returnState
  {
    hide Agrees, Recoverable, Stamped, LeavingHolds;
    if c.m.postSave >= 0 {
      PersistKeeps(Settle(c), c.m.postSave, f, cs);
      PersistRecoverable(Settle(c), c.m.postSave, f);
    }
  }

  /** A transition may speak once the state it parks fits the store. */
  ghost predicate Ready(c: Core, returnTo: State, f: Flash, cs: seq<Completion>) {
    && Settled(returnTo) && c.m.state != TypingErase && !c.m.eraseActive
    && -1 <= c.m.moveSource && -1 <= c.m.postSave && (c.m.postSave >= 0 ==> returnTo == Idle)
    && Body(returnTo, c.m.moveSource, c.m.postSave, c, f, cs)
  }

  lemma SayKeeps(
      c: Core, returnTo: State, notice: Notice, slot: int, slot2: int, kind: FbKind, gate: Gate,
      f: Flash, cs: seq<Completion>)
    requires Ready(c, returnTo, f, cs)
    ensures Inv(World(Say(c, returnTo, notice, slot, slot2, kind, gate), f, cs))
  {
    hide Agrees, Recoverable, Stamped, LeavingHolds, StoreShape;
    FinishKeeps(Announced(c, returnTo, notice, slot, slot2, kind), gate, f, cs);
  }

  lemma SpeakKeeps(c: Core, returnTo: State, kind: FbKind, gate: Gate, f: Flash, cs: seq<Completion>)
    requires Ready(c, returnTo, f, cs)
    ensures Inv(World(Speak(EnterTyping(c, returnTo), kind, -1, -1, gate), f, cs))
  {
    hide Agrees, Recoverable, Stamped, LeavingHolds, StoreShape;
    FinishKeeps(Voice(EnterTyping(c, returnTo), kind, -1, -1), gate, f, cs);
  }

  // ---- store operations under the machine ---------------------------------------------

  /** A delete request, seen from flash. */
  lemma DeleteFinal(s: Store, q: seq<Op>, i: int, f: Flash, j: int)
    requires |s.slots| == MAX_SLOTS && !s.IsEmpty(i) && IsNvs(j)
    ensures
      var o := DeleteSlot(s, q, i);
      && Final(f, o.queue, j) == (if o.result == DeleteDeferred && j == i then Absent else Final(f, q, j))
      && Expect(o.store, j) == (if o.result == DeleteDeferred && j == i then Absent else Expect(s, j))
  {
    FinalAppend(f, q, Delete(i, s.slots[i].gen), j);
  }

  lemma DeleteAgrees(c: Core, i: int, f: Flash)
    requires |c.store.slots| == MAX_SLOTS && !c.store.IsEmpty(i) && Agrees(c.store, c.queue, c.lost, -1, f)
    ensures var c' := StoreDelete(c, i).0; Agrees(c'.store, c'.queue, c'.lost, -1, f)
  {
    hide Final, Expect, DeleteSlot;
    SlotsStay(c, i);
    var c' := StoreDelete(c, i).0;
    forall j | IsNvs(j) && j !in c'.lost
      ensures Final(f, c'.queue, j) == Expect(c'.store, j)
    {
      DeleteFinal(c.store, c.queue, i, f, j);
    }
  }

  lemma SlotsStay(c: Core, i: int)
    requires |c.store.slots| == MAX_SLOTS
    ensures |StoreDelete(c, i).0.store.slots| == MAX_SLOTS
  {
  }

  lemma DeleteStamped(c: Core, i: int, cs: seq<Completion>)
    requires |c.store.slots| == MAX_SLOTS && !c.store.IsEmpty(i) && Stamped(c.store, c.queue, c.lost, -1, cs)
    ensures var c' := StoreDelete(c, i).0; Stamped(c'.store, c'.queue, c'.lost, -1, cs)
  {
    hide Lone;
    DeleteLone(c.store, c.queue, i, cs);
    if IsNvs(i) {
      NoneCarries(c.store, c.queue, cs, i);
    }
  }

  /** No delete under way carries the stamp of a slot that shows a macro. */
  lemma NoneCarries(s: Store, q: seq<Op>, cs: seq<Completion>, i: int)
    requires |s.slots| == MAX_SLOTS && Lone(s, q, cs) && IsNvs(i) && !s.IsEmpty(i)
    ensures forall k :: 0 <= k < |q| && q[k].Delete? && q[k].slot == i ==> q[k].gen != s.slots[i].gen
    ensures forall k :: 0 <= k < |cs| && cs[k].DeleteDone? && cs[k].slot == i ==> cs[k].gen != s.slots[i].gen
  {
  }

  lemma DeleteLone(s: Store, q: seq<Op>, i: int, cs: seq<Completion>)
    requires |s.slots| == MAX_SLOTS && !s.IsEmpty(i) && Lone(s, q, cs)
    requires forall k :: 0 <= k < |q| && q[k].Delete? && q[k].slot == i && IsNvs(i) ==> q[k].gen <= s.slots[i].gen
    requires forall k :: 0 <= k < |cs| && cs[k].DeleteDone? && cs[k].slot == i && IsNvs(i) ==>
               cs[k].gen <= s.slots[i].gen
    ensures var o := DeleteSlot(s, q, i); Lone(o.store, o.queue, cs)
  {
  }

  lemma DeleteRecoverable(c: Core, i: int, f: Flash, cs: seq<Completion>)
    requires |c.store.slots| == MAX_SLOTS && !c.store.IsEmpty(i) && Recoverable(c.store, c.queue, c.unsaved, f)
    requires Agrees(c.store, c.queue, c.lost, -1, f) && Stamped(c.store, c.queue, c.lost, -1, cs)
    ensures
      var c' := StoreDelete(c, i).0;
      |c'.store.slots| == MAX_SLOTS && Recoverable(c'.store, c'.queue, c'.unsaved, f)
  {
    hide Lone;
    var c', gen := StoreDelete(c, i).0, c.store.slots[i].gen;
    if IsNvs(i) {
      NoneCarries(c.store, c.queue, cs, i);
      HeldIsFinal(f, c.queue, i, gen);
    }
    forall j | IsNvs(j) && c'.store.slots[j].pending && j !in c'.unsaved
      ensures Held(f, c'.queue, j, c'.store.slots[j].gen) == Present(c'.store.slots[j].events)
    {
      HeldAppend(f, c.queue, Delete(i, gen), j, c'.store.slots[j].gen);
    }
  }

  lemma DeleteShape(c: Core, i: int, deep: State, source: int)
    requires StoreShape(deep, source, -1, c.store) && !c.store.IsEmpty(i) && i != source && deep != Playing
    ensures StoreShape(deep, source, -1, StoreDelete(c, i).0.store)
  {
    hide Total;
    StepKeepsValid(c.store, c.queue, DeleteOp(i));
    StepFollows(c.store, c.queue, DeleteOp(i), i);
  }

  lemma DeleteKeeps(c: Core, i: int, deep: State, source: int, f: Flash, cs: seq<Completion>)
    requires Body(deep, source, -1, c, f, cs) && !c.store.IsEmpty(i) && i != source && deep != Playing
    ensures Body(deep, source, -1, StoreDelete(c, i).0, f, cs)
    ensures var (c', rc) := StoreDelete(c, i); rc == Ok || rc == DeleteDeferred ==> c'.store.IsEmpty(i)
  {
    hide Agrees, Recoverable, Stamped, LeavingHolds;
    DeleteAgrees(c, i, f);
    DeleteStamped(c, i, cs);
    DeleteRecoverable(c, i, f, cs);
    DeleteShape(c, i, deep, source);
  }

  lemma CommitAgrees(c: Core, i: int, f: Flash, cs: seq<Completion>)
    requires |c.store.slots| == MAX_SLOTS
    requires Agrees(c.store, c.queue, c.lost, -1, f) && Stamped(c.store, c.queue, c.lost, -1, cs)
    requires DraftCommit(c.store, i).1 == Ok
    ensures var s := DraftCommit(c.store, i).0; Agrees(s, c.queue, c.lost, i, f) && Stamped(s, c.queue, c.lost, i, cs)
  {
  }

  lemma CommitRecoverable(c: Core, i: int, f: Flash)
    requires |c.store.slots| == MAX_SLOTS && Recoverable(c.store, c.queue, c.unsaved, f)
    ensures
      var s := DraftCommit(c.store, i).0;
      |s.slots| == MAX_SLOTS && Recoverable(s, c.queue, c.unsaved, f)
  {
    hide Held;
  }

  lemma CommitKeeps(c: Core, i: int, f: Flash, cs: seq<Completion>)
    requires Body(PendingAssign, -1, -1, c, f, cs)
    ensures
      var (c', rc) := StoreCommit(c, i);
      if rc == Ok then Body(Idle, -1, i, c', f, cs) && c'.store.View(i) == c.store.draft else c' == c
  {
    hide Agrees, Recoverable, Stamped, Total;
    if StoreCommit(c, i).1 == Ok {
      StepKeepsValid(c.store, c.queue, CommitOp(i));
      StepFollows(c.store, c.queue, CommitOp(i), i);
      CommitAgrees(c, i, f, cs);
      CommitRecoverable(c, i, f);
    }
  }

  /** What a move queues. */
  lemma MoveQueues(s: Store, q: seq<Op>, src: int, dst: int)
    requires |s.slots| == MAX_SLOTS
    ensures
      var o := Move(s, q, src, dst);
      if o.result == Ok || o.result == DeleteQueueFull then
        && IsSlot(src) && IsSlot(dst) && src != dst && o.queue == Queued(s, q, src, dst, o.result == Ok)
      else o.queue == q
  {
  }

  function Queued(s: Store, q: seq<Op>, src: int, dst: int, deletes: bool): seq<Op>
    requires |s.slots| == MAX_SLOTS && IsSlot(src) && IsSlot(dst)
  {
    var saved := if IsNvs(dst) then q + [Save(dst, s.slots[src].events, s.slots[dst].gen + 1)] else q;
    if deletes && IsNvs(src) then saved + [Delete(src, s.slots[src].gen + 1)] else saved
  }

  lemma QueuedFinal(s: Store, q: seq<Op>, src: int, dst: int, deletes: bool, f: Flash, j: int)
    requires |s.slots| == MAX_SLOTS && IsSlot(src) && IsSlot(dst) && src != dst && IsNvs(j)
    ensures Final(f, Queued(s, q, src, dst, deletes), j) ==
      (if deletes && j == src then Absent else if j == dst then Present(s.slots[src].events) else Final(f, q, j))
  {
    hide Final;
    var save, gone := Save(dst, s.slots[src].events, s.slots[dst].gen + 1), Delete(src, s.slots[src].gen + 1);
    FinalAppend(f, q, save, j);
    FinalAppend(f, if IsNvs(dst) then q + [save] else q, gone, j);
  }

  /** The two operations a move queues, seen from flash. */
  lemma MoveFinal(s: Store, q: seq<Op>, src: int, dst: int, f: Flash, j: int)
    requires |s.slots| == MAX_SLOTS && IsNvs(j)
    ensures
      var o := Move(s, q, src, dst);
      if o.result == Ok || o.result == DeleteQueueFull then
        && src != dst && IsSlot(src) && IsSlot(dst)
        && Final(f, o.queue, j) ==
          (if o.result == Ok && j == src then Absent
           else if j == dst then Present(s.slots[src].events)
           else Final(f, q, j))
      else Final(f, o.queue, j) == Final(f, q, j)
  {
    hide Final, Move, Queued;
    var o := Move(s, q, src, dst);
    MoveQueues(s, q, src, dst);
    if o.result == Ok || o.result == DeleteQueueFull {
      QueuedFinal(s, q, src, dst, o.result == Ok, f, j);
    }
  }

  lemma MoveAgrees(c: Core, src: int, dst: int, f: Flash)
    requires |c.store.slots| == MAX_SLOTS && Agrees(c.store, c.queue, c.lost, -1, f)
    ensures var c' := StoreMove(c, src, dst).0; Agrees(c'.store, c'.queue, c'.lost, -1, f)
  {
    hide Final;
    var c' := StoreMove(c, src, dst).0;
    forall j | IsNvs(j) && j !in c'.lost
      ensures Final(f, c'.queue, j) == Expect(c'.store, j)
    {
      MoveFinal(c.store, c.queue, src, dst, f, j);
    }
  }

  lemma MoveFits(s: Store, q: seq<Op>, src: int, dst: int)
    requires |s.slots| == MAX_SLOTS && SavesFit(q)
    ensures SavesFit(Move(s, q, src, dst).queue)
  {
  }

  lemma MoveStamped(c: Core, src: int, dst: int, cs: seq<Completion>)
    requires |c.store.slots| == MAX_SLOTS && Stamped(c.store, c.queue, c.lost, -1, cs)
    ensures var c' := StoreMove(c, src, dst).0; Stamped(c'.store, c'.queue, c'.lost, -1, cs)
  {
    hide Lone, SavesFit;
    MoveLone(c.store, c.queue, src, dst, cs);
    MoveFits(c.store, c.queue, src, dst);
  }

  /** A slot update that spends the slot's stamp leaves every delete under way lone. */
  lemma BumpLone(s: Store, q: seq<Op>, cs: seq<Completion>, i: int, slot: Slot)
    requires |s.slots| == MAX_SLOTS && Lone(s, q, cs) && IsSlot(i) && slot.gen > s.slots[i].gen
    requires forall k :: 0 <= k < |q| && q[k].Delete? && q[k].slot == i && IsNvs(i) ==> q[k].gen <= s.slots[i].gen
    requires forall k :: 0 <= k < |cs| && cs[k].DeleteDone? && cs[k].slot == i && IsNvs(i) ==>
               cs[k].gen <= s.slots[i].gen
    ensures Lone(s.With(i, slot), q, cs)
    ensures forall k :: 0 <= k < |q| && q[k].Delete? && q[k].slot == i ==> Spent(s.With(i, slot), i, q[k].gen)
    ensures forall k :: 0 <= k < |cs| && cs[k].DeleteDone? && cs[k].slot == i ==> Spent(s.With(i, slot), i, cs[k].gen)
  {
  }

  /** A delete of an emptied slot none of whose deletes under way carries its stamp. */
  lemma GoneLone(s: Store, q: seq<Op>, cs: seq<Completion>, i: int)
    requires |s.slots| == MAX_SLOTS && Lone(s, q, cs) && IsNvs(i) && s.slots[i].events == []
    requires forall k :: 0 <= k < |q| && q[k].Delete? && q[k].slot == i ==> Spent(s, i, q[k].gen)
    requires forall k :: 0 <= k < |cs| && cs[k].DeleteDone? && cs[k].slot == i ==> Spent(s, i, cs[k].gen)
    ensures Lone(s, q + [Delete(i, s.slots[i].gen)], cs)
  {
  }

  /** Every delete under way carries a stamp its slot has handed out. */
  ghost predicate Issued(s: Store, q: seq<Op>, cs: seq<Completion>)
    requires |s.slots| == MAX_SLOTS
  {
    && (forall k :: 0 <= k < |q| && q[k].Delete? && IsNvs(q[k].slot) ==> q[k].gen <= s.slots[q[k].slot].gen)
    && (forall k :: 0 <= k < |cs| && cs[k].DeleteDone? && IsNvs(cs[k].slot) ==> cs[k].gen <= s.slots[cs[k].slot].gen)
  }

  lemma MoveLone(s: Store, q: seq<Op>, src: int, dst: int, cs: seq<Completion>)
    requires |s.slots| == MAX_SLOTS && Lone(s, q, cs) && Issued(s, q, cs)
    ensures var o := Move(s, q, src, dst); Lone(o.store, o.queue, cs)
  {
    hide Lone, Move;
    var o := Move(s, q, src, dst);
    MoveOutcomes(s, q, src, dst);
    MoveQueues(s, q, src, dst);
    if o.result == SaveQueueFull {
      BumpLone(s, q, cs, dst, Slot([], false, s.slots[dst].gen + 2));
    } else if o.result == Ok || o.result == DeleteQueueFull {
      MovedLone(s, q, src, dst, cs);
    }
  }

  lemma MovedLone(s: Store, q: seq<Op>, src: int, dst: int, cs: seq<Completion>)
    requires |s.slots| == MAX_SLOTS && Lone(s, q, cs) && Issued(s, q, cs) && IsSlot(src) && IsSlot(dst) && src != dst
    ensures forall deletes :: Lone(Relocated(s, src, dst), Queued(s, q, src, dst, deletes), cs)
  {
    hide Lone;
    var taken, freed := Slot(s.slots[src].events, false, s.slots[dst].gen + 1), Slot([], false, s.slots[src].gen + 1);
    var s1 := s.With(dst, taken);
    BumpLone(s, q, cs, dst, taken);
    BumpLone(s1, q, cs, src, freed);
    var s2 := s1.With(src, freed);
    var save := Save(dst, s.slots[src].events, s.slots[dst].gen + 1);
    assert s2 == Relocated(s, src, dst);
    SaveLone(s2, q, cs, save);
    if IsNvs(src) {
      GoneLone(s2, q, cs, src);
      GoneLone(s2, q + [save], cs, src);
    }
  }

  lemma MoveRecoverable(c: Core, src: int, dst: int, f: Flash)
    requires |c.store.slots| == MAX_SLOTS && Recoverable(c.store, c.queue, c.unsaved, f)
    ensures
      var c' := StoreMove(c, src, dst).0;
      |c'.store.slots| == MAX_SLOTS && Recoverable(c'.store, c'.queue, c'.unsaved, f)
  {
    hide Held, Recoverable, Move;
    MoveOutcomes(c.store, c.queue, src, dst);
    MoveQueues(c.store, c.queue, src, dst);
    var o := Move(c.store, c.queue, src, dst);
    if o.result == SaveQueueFull {
      ReplaceRecoverable(c.store, c.queue, c.unsaved, f, dst, Slot([], false, c.store.slots[dst].gen + 2));
    } else if o.result == Ok || o.result == DeleteQueueFull {
      RelocatedRecoverable(c.store, c.queue, c.unsaved, f, src, dst);
    }
  }

  lemma ReplaceRecoverable(s: Store, q: seq<Op>, unsaved: set<int>, f: Flash, i: int, slot: Slot)
    requires |s.slots| == MAX_SLOTS && IsSlot(i) && !slot.pending && Recoverable(s, q, unsaved, f)
    ensures Recoverable(s.With(i, slot), q, unsaved, f)
  {
    hide Held;
  }

  lemma RelocatedRecoverable(s: Store, q: seq<Op>, unsaved: set<int>, f: Flash, src: int, dst: int)
    requires |s.slots| == MAX_SLOTS && IsSlot(src) && IsSlot(dst) && src != dst && Recoverable(s, q, unsaved, f)
    ensures forall deletes :: Recoverable(Relocated(s, src, dst), Queued(s, q, src, dst, deletes), unsaved, f)
  {
    hide Held, Recoverable;
    var taken, freed := Slot(s.slots[src].events, false, s.slots[dst].gen + 1), Slot([], false, s.slots[src].gen + 1);
    ReplaceRecoverable(s, q, unsaved, f, dst, taken);
    ReplaceRecoverable(s.With(dst, taken), q, unsaved, f, src, freed);
    var s2 := Relocated(s, src, dst);
    var save, gone := Save(dst, s.slots[src].events, s.slots[dst].gen + 1), Delete(src, s.slots[src].gen + 1);
    AppendRecoverable(s2, q, unsaved, f, save);
    AppendRecoverable(s2, q, unsaved, f, gone);
    AppendRecoverable(s2, q + [save], unsaved, f, gone);
  }

  lemma MoveKeeps(c: Core, src: int, dst: int, f: Flash, cs: seq<Completion>)
    requires Body(MovePending, src, -1, c, f, cs)
    ensures Body(Idle, -1, -1, StoreMove(c, src, dst).0, f, cs)
  {
    hide Agrees, Recoverable, Stamped, Total;
    StepKeepsValid(c.store, c.queue, MoveOp(src, dst));
    if IsSlot(src) {
      StepFollows(c.store, c.queue, MoveOp(src, dst), src);
    }
    MoveAgrees(c, src, dst, f);
    MoveStamped(c, src, dst, cs);
    MoveRecoverable(c, src, dst, f);
  }

  // ---- commands -----------------------------------------------------------------------------

  /** A command is accepted in a state that is neither typing nor playing. */
  ghost predicate Resting(c: Core, f: Flash, cs: seq<Completion>) {
    && MachineShape(c.m) && Settled(c.m.state) && !c.m.eraseActive && c.m.postSave == -1
    && Body(c.m.state, c.m.moveSource, -1, c, f, cs)
  }

  lemma SlotRecordingKeeps(c: Core, i: int, gate: Gate, f: Flash, cs: seq<Completion>)
    requires Resting(c, f, cs) && c.m.state == Recording
    ensures Inv(World(SlotRecording(c, i, gate), f, cs))
  {
    hide Agrees, Recoverable, Stamped, Total;
    var (s, rc) := DraftChain(c.store, i);
    if c.store.IsEmpty(i) {
      SayKeeps(c, Recording, ErrorSlotEmpty, i, -1, FbChainEmpty, gate, f, cs);
    } else if rc == RejectedFull {
      SayKeeps(c, Recording, ErrorChainFull, i, -1, FbChainNoRoom, gate, f, cs);
    } else {
      DraftOnly(c, s, f, cs);
      SayKeeps(c.(store := s), Recording, ChainInserted, i, -1, FbChainInsert, gate, f, cs);
    }
  }

  /** Flash and the stamps do not depend on the draft, nor on which slot plays. */
  lemma DraftOnly(c: Core, s: Store, f: Flash, cs: seq<Completion>)
    requires |c.store.slots| == MAX_SLOTS && s.slots == c.store.slots
    ensures forall owed :: Agrees(c.store, c.queue, c.lost, owed, f) ==> Agrees(s, c.queue, c.lost, owed, f)
    ensures forall owed :: Stamped(c.store, c.queue, c.lost, owed, cs) ==> Stamped(s, c.queue, c.lost, owed, cs)
    ensures Recoverable(c.store, c.queue, c.unsaved, f) ==> Recoverable(s, c.queue, c.unsaved, f)
  {
    assert forall i :: Expect(s, i) == Expect(c.store, i);
    assert forall owed, i, g :: IsNvs(i) ==> Older(s, owed, i, g) == Older(c.store, owed, i, g);
  }

  lemma AssignEmptyKeeps(c: Core, i: int, gate: Gate, f: Flash, cs: seq<Completion>)
    requires Resting(c, f, cs) && c.m.state == PendingAssign
    ensures Inv(World(AssignEmpty(c, i, gate), f, cs))
  {
    hide Agrees, Recoverable, Stamped, Total, LeavingHolds;
    CommitSource(c, f, cs);
    CommitKeeps(c, i, f, cs);
    var (c1, rc) := StoreCommit(c, i);
    if rc == RejectedTooLarge {
      SayKeeps(c1, PendingAssign, ErrorTooLarge, i, -1, FbTooLarge, gate, f, cs);
    } else if rc != Ok {
      SayKeeps(c1, PendingAssign, ErrorSlotOccupied, i, -1, FbSlotFull, gate, f, cs);
    } else {
      SayKeeps(c1.(m := c1.m.(postSave := i)), Idle, Saved, i, -1, FbSaved, gate, f, cs);
    }
  }

  lemma CommitSource(c: Core, f: Flash, cs: seq<Completion>)
    requires Resting(c, f, cs) && c.m.state != MovePending
    ensures c.m.moveSource == -1
  {
  }

  lemma SlotAssignKeeps(c: Core, i: int, gate: Gate, f: Flash, cs: seq<Completion>)
    requires Resting(c, f, cs) && c.m.state == PendingAssign && IsSlot(i)
    ensures Inv(World(SlotAssign(c, i, gate), f, cs))
  {
    hide Agrees, Recoverable, Stamped, Total, LeavingHolds;
    var c0 := c.(armed := false);
    CommitSource(c, f, cs);
    if c0.store.IsEmpty(i) {
      AssignEmptyKeeps(c0, i, gate, f, cs);
    } else if !AutoOverwrite(i) {
      SayKeeps(c0, PendingAssign, ErrorSlotOccupied, i, -1, FbSlotFull, gate, f, cs);
    } else {
      DeleteKeeps(c0, i, PendingAssign, -1, f, cs);
      var (c1, rc) := StoreDelete(c0, i);
      if rc != Ok && rc != DeleteDeferred {
        SayKeeps(c1, PendingAssign, ErrorDeleteQueueFull, i, -1, FbDeleteQfull, gate, f, cs);
      } else {
        AssignEmptyKeeps(c1, i, gate, f, cs);
      }
    }
  }

  /** Nothing about the store depends on which settled state follows, unless it is PendingAssign. */
  lemma IdleAfter(deep: State, c: Core, f: Flash, cs: seq<Completion>)
    requires Body(deep, -1, -1, c, f, cs) && deep != Playing
    ensures forall next :: Settled(next) && next != PendingAssign ==> Body(next, -1, -1, c, f, cs)
    ensures c.store.draft != [] ==> Body(PendingAssign, -1, -1, c, f, cs)
  {
    hide Agrees, Recoverable, Stamped;
  }

  lemma SlotDeleteKeeps(c: Core, i: int, gate: Gate, f: Flash, cs: seq<Completion>)
    requires Resting(c, f, cs) && c.m.state == DeletePending && IsSlot(i)
    ensures Inv(World(SlotDelete(c, i, gate), f, cs))
  {
    hide Agrees, Recoverable, Stamped, Total, LeavingHolds;
    var c0 := c.(armed := false);
    CommitSource(c, f, cs);
    if c0.store.IsEmpty(i) {
      IdleAfter(DeletePending, c0, f, cs);
      SayKeeps(c0, Idle, ErrorSlotEmpty, i, -1, FbSlotEmpty, gate, f, cs);
    } else {
      DeleteKeeps(c0, i, DeletePending, -1, f, cs);
      var (c1, rc) := StoreDelete(c0, i);
      IdleAfter(DeletePending, c1, f, cs);
      if rc == DeleteQueueFull {
        SayKeeps(c1, Idle, ErrorDeleteQueueFull, i, -1, FbDeleteQfull, gate, f, cs);
      } else if rc == DeleteDeferred {
        FinishKeeps(EnterTyping(c1, Idle), gate, f, cs);
      } else {
        SayKeeps(c1, Idle, Deleted, i, -1, FbDeleted, gate, f, cs);
      }
    }
  }

  lemma MoveIntoKeeps(c: Core, src: int, dst: int, gate: Gate, f: Flash, cs: seq<Completion>)
    requires Resting(c, f, cs) && c.m.state == MovePending && c.m.moveSource == src
    ensures Inv(World(MoveInto(c, src, dst, gate), f, cs))
  {
    hide Agrees, Recoverable, Stamped, Total, LeavingHolds;
    MoveKeeps(c, src, dst, f, cs);
    var (c1, rc) := StoreMove(c.(m := c.m.(moveSource := -1), armed := false), src, dst);
    assert Ready(c1, Idle, f, cs);
    if rc == RejectedTooLarge {
      SayKeeps(c1, Idle, ErrorTooLarge, dst, -1, FbTooLarge, gate, f, cs);
    } else if rc == SaveQueueFull {
      SayKeeps(c1, Idle, ErrorSaveQueueFull, dst, -1, FbSaveQfull, gate, f, cs);
    } else if rc == DeleteQueueFull {
      SayKeeps(c1, Idle, ErrorDeleteQueueFull, src, -1, FbDeleteQfull, gate, f, cs);
    } else {
      SayKeeps(c1, Idle, Moved, dst, src, FbMoved, gate, f, cs);
    }
  }

  lemma SlotMoveKeeps(c: Core, i: int, gate: Gate, f: Flash, cs: seq<Completion>)
    requires Resting(c, f, cs) && c.m.state == MovePending && IsSlot(i)
    ensures Inv(World(SlotMove(c, i, gate), f, cs))
  {
    hide Agrees, Recoverable, Stamped;
    var src := c.m.moveSource;
    if src < 0 {
      if c.store.IsEmpty(i) {
        SayKeeps(c, MovePending, ErrorSlotEmpty, i, -1, FbSlotEmpty, gate, f, cs);
      } else {
        SayKeeps(c.(m := c.m.(moveSource := i)), MovePending, MoveSrcSelected, i, -1, FbMoveSrc, gate, f, cs);
      }
    } else if src == i {
      SayKeeps(c.(m := c.m.(moveSource := -1), armed := false), Idle, MoveCancelled, -1, -1, FbMoveCancel, gate, f, cs);
    } else if c.store.IsEmpty(i) {
      MoveIntoKeeps(c, src, i, gate, f, cs);
    } else if !AutoOverwrite(i) {
      SayKeeps(c, MovePending, ErrorSlotOccupied, i, -1, FbSlotFull, gate, f, cs);
    } else {
      DeleteKeeps(c, i, MovePending, src, f, cs);
      var (c1, rc) := StoreDelete(c, i);
      if rc != Ok && rc != DeleteDeferred {
        SayKeeps(c1, MovePending, ErrorDeleteQueueFull, i, -1, FbDeleteQfull, gate, f, cs);
      } else {
        MoveIntoKeeps(c1, src, i, gate, f, cs);
      }
    }
  }

  lemma SlotPlayKeeps(c: Core, i: int, gate: Gate, f: Flash, cs: seq<Completion>)
    requires Resting(c, f, cs) && c.m.state == Idle && IsSlot(i)
    ensures Inv(World(SlotPlay(c, i, gate), f, cs))
  {
    hide Agrees, Recoverable, Stamped, Total;
    if c.store.IsEmpty(i) {
      SayKeeps(c, Idle, ErrorSlotEmpty, i, -1, FbSlotEmpty, gate, f, cs);
    } else {
      DraftOnly(c, MarkPlaying(c.store, i), f, cs);
    }
  }

  lemma DoSlotKeeps(c: Core, i: int, gate: Gate, f: Flash, cs: seq<Completion>)
    requires Resting(c, f, cs) && IsSlot(i)
    ensures Inv(World(DoSlot(c, i, gate), f, cs))
  {
    hide Agrees, Recoverable, Stamped, Total, LeavingHolds;
    match c.m.state {
      case Recording => SlotRecordingKeeps(c, i, gate, f, cs);
      case PendingAssign => SlotAssignKeeps(c, i, gate, f, cs);
      case DeletePending => SlotDeleteKeeps(c, i, gate, f, cs);
      case MovePending => SlotMoveKeeps(c, i, gate, f, cs);
      case PreviewPending =>
        CommitSource(c, f, cs);
        IdleAfter(PreviewPending, c, f, cs);
        FinishKeeps(Notify(EnterTyping(c.(armed := false), Idle), PreviewReady, i, -1), gate, f, cs);
      case Idle => SlotPlayKeeps(c, i, gate, f, cs);
    }
  }

  lemma RecKeeps(c: Core, gate: Gate, f: Flash, cs: seq<Completion>)
    requires Resting(c, f, cs) && c.m.state != MovePending
    ensures Inv(World(DoRec(c, gate), f, cs))
  {
    hide Agrees, Recoverable, Stamped, Total;
    var c0 := c.(armed := false, store := DraftReset(c.store));
    DraftOnly(c, c0.store, f, cs);
    SayKeeps(c0, Recording, RecordingStarted, -1, -1, FbRec, gate, f, cs);
  }

  lemma StopKeeps(c: Core, gate: Gate, f: Flash, cs: seq<Completion>)
    requires Resting(c, f, cs) && c.m.state == Recording
    ensures Inv(World(DoStop(c, gate), f, cs))
    ensures c.store.draft != [] ==> Inv(World(DoOverflow(c, gate), f, cs))
  {
    hide Agrees, Recoverable, Stamped, Total, LeavingHolds;
    CommitSource(c, f, cs);
    IdleAfter(Recording, c, f, cs);
    if c.store.draft == [] {
      SayKeeps(c, Idle, ErrorNoRecording, -1, -1, FbNoRec, gate, f, cs);
    } else {
      SayKeeps(c, PendingAssign, RecordingStopped, -1, -1, FbStop, gate, f, cs);
      SayKeeps(c, PendingAssign, ErrorOverflow, -1, -1, FbOverflow, gate, f, cs);
    }
  }

  lemma PromptsKeep(c: Core, f: Flash, cs: seq<Completion>)
    requires Resting(c, f, cs) && c.m.state == Idle
    ensures Inv(World(DoDeleteMode(c), f, cs)) && Inv(World(DoPreview(c), f, cs))
  {
    hide Agrees, Recoverable, Stamped, Total, LeavingHolds;
  }

  lemma ModesKeep(c: Core, gate: Gate, f: Flash, cs: seq<Completion>)
    requires Resting(c, f, cs) && c.m.state == Idle
    ensures Inv(World(DoMoveMode(c, gate), f, cs)) && Inv(World(DoStatus(c, gate), f, cs))
  {
    hide Agrees, Recoverable, Stamped, StoreShape;
    CommitSource(c, f, cs);
    IdleAfter(Idle, c, f, cs);
    SayKeeps(c.(m := c.m.(moveSource := -1)), MovePending, MovePrompt, -1, -1, FbMovePrompt, gate, f, cs);
    SpeakKeeps(c, Idle, FbStatusHeader, gate, f, cs);
  }

  lemma KnobAgrees(c: Core, op: Op, f: Flash, cs: seq<Completion>)
    requires |c.store.slots| == MAX_SLOTS && op.SaveKnobs? && |c.queue| < QUEUE_LEN
    requires Agrees(c.store, c.queue, c.lost, -1, f) && Stamped(c.store, c.queue, c.lost, -1, cs)
    ensures Agrees(c.store, c.queue + [op], c.lost, -1, f) && Stamped(c.store, c.queue + [op], c.lost, -1, cs)
  {
    forall i | IsNvs(i)
      ensures Final(f, c.queue + [op], i) == Final(f, c.queue, i)
    {
      FinalAppend(f, c.queue, op, i);
    }
  }

  lemma KnobKeeps(c: Core, gate: Gate, knobs: seq<Op>, f: Flash, cs: seq<Completion>)
    requires Resting(c, f, cs) && c.m.state == Idle && forall k :: 0 <= k < |knobs| ==> knobs[k].SaveKnobs?
    ensures Inv(World(DoKnob(c, gate, knobs), f, cs))
  {
    hide Agrees, Recoverable, Stamped, Total, LeavingHolds;
    if knobs != [] && |c.queue| < QUEUE_LEN {
      KnobAgrees(c, knobs[0], f, cs);
      AppendRecoverable(c.store, c.queue, c.unsaved, f, knobs[0]);
    }
    var c1 := Notify(EnterTyping(c, Idle), SettingsChanged, -1, -1);
    var c2 := c1.(queue := WithKnobs(c1.queue, knobs));
    FinishKeeps(Voice(c2, FbKnob, -1, -1), gate, f, cs);
  }

  lemma DispatchKeeps(c: Core, cmd: Command, i: int, gate: Gate, knobs: seq<Op>, f: Flash, cs: seq<Completion>)
    requires Inv(World(c, f, cs))
    requires cmd == SlotKey ==> IsSlot(i)
    requires cmd == Overflow ==> c.store.draft != []
    requires forall k :: 0 <= k < |knobs| ==> knobs[k].SaveKnobs?
    ensures Inv(World(Dispatch(c, cmd, i, gate, knobs), f, cs))
  {
    hide Body;
    if Allowed(c.m.state, cmd) {
      assert Resting(c, f, cs);
      match cmd {
        case Rec => RecKeeps(c, gate, f, cs);
        case Stp => StopKeeps(c, gate, f, cs);
        case Del => PromptsKeep(c, f, cs);
        case Mov => ModesKeep(c, gate, f, cs);
        case SlotKey => DoSlotKeeps(c, i, gate, f, cs);
        case Status => ModesKeep(c, gate, f, cs);
        case Preview => PromptsKeep(c, f, cs);
        case FeedbackInc => KnobKeeps(c, gate, knobs, f, cs);
        case FeedbackDec => KnobKeeps(c, gate, knobs, f, cs);
        case StyleToggle => KnobKeeps(c, gate, knobs, f, cs);
        case EraseToggle => KnobKeeps(c, gate, knobs, f, cs);
        case TestReload =>
        case Overflow => StopKeeps(c, gate, f, cs);
      }
    }
  }

  // ---- the other steps ---------------------------------------------------------------------

  lemma RecordKeeps(c: Core, e: Event, gate: Gate, f: Flash, cs: seq<Completion>)
    requires Inv(World(c, f, cs)) && c.m.state == Recording
    ensures Inv(World(RecordEvent(c, e, gate), f, cs))
  {
    hide Agrees, Recoverable, Stamped, Total;
    var (s, ok) := DraftAppend(c.store, e);
    if ok {
      DraftOnly(c, s, f, cs);
    } else {
      DispatchKeeps(c, Overflow, 0, gate, [], f, cs);
    }
  }

  lemma ExpireKeeps(w: World)
    requires Inv(w)
    ensures Inv(w.(core := Timeout(w.core.(armed := false))))
  {
    hide Agrees, Recoverable, Stamped, Total, LeavingHolds;
  }

  lemma EraseKeeps(w: World)
    requires Inv(w)
    ensures w.core.m.state != Playing ==> Inv(w.(core := EraseDue(w.core)))
    ensures Inv(w.(core := EraseRestore(w.core)))
  {
    hide Agrees, Recoverable, Stamped, StoreShape;
  }

  lemma PlayEndKeeps(w: World)
    requires Inv(w) && w.core.m.state == Playing
    ensures Inv(w.(core := PlayFinished(w.core, w.core.store.playing)))
  {
    hide Agrees, Recoverable, Stamped, Total;
    DraftOnly(w.core, ClearPlaying(w.core.store), w.flash, w.completions);
  }

  lemma WorkAgrees(w: World, ok: bool, owed: int)
    requires |w.core.store.slots| == MAX_SLOTS && w.core.queue != []
    requires Agrees(w.core.store, w.core.queue, w.core.lost, owed, w.flash)
    ensures var w' := WorkStep(w, ok); Agrees(w'.core.store, w'.core.queue, w'.core.lost, owed, w'.flash)
  {
    var w' := WorkStep(w, ok);
    forall i | IsNvs(i) && i !in w'.core.lost && i != owed
      ensures Final(w'.flash, w'.core.queue, i) == Expect(w'.core.store, i)
    {
      FinalApplied(w.flash, w.core.queue, i, ok);
    }
  }

  lemma WorkStamped(w: World, ok: bool, owed: int)
    requires |w.core.store.slots| == MAX_SLOTS && w.core.queue != []
    requires Stamped(w.core.store, w.core.queue, w.core.lost, owed, w.completions)
    ensures var w' := WorkStep(w, ok); Stamped(w'.core.store, w'.core.queue, w'.core.lost, owed, w'.completions)
  {
    hide Lone;
    var q, s := w.core.queue, w.core.store;
    WorkLone(w, ok);
    if q[0].Delete? && !ok && Concerns(q[1..], q[0].slot) {
      ConcernsSome(q[1..], q[0].slot);
      HeadSpent(s, q, w.completions);
    }
  }

  /** A delete followed by anything that concerns its slot no longer carries the slot's stamp. */
  lemma HeadSpent(s: Store, q: seq<Op>, cs: seq<Completion>)
    requires |s.slots| == MAX_SLOTS && Lone(s, q, cs) && q != [] && q[0].Delete?
    requires exists k :: 0 <= k < |q[1..]| && !q[1..][k].SaveKnobs? && q[1..][k].slot == q[0].slot
    ensures Spent(s, q[0].slot, q[0].gen)
  {
    var k :| 0 <= k < |q[1..]| && !q[1..][k].SaveKnobs? && q[1..][k].slot == q[0].slot;
    assert q[1 + k] == q[1..][k];
  }

  lemma WorkLone(w: World, ok: bool)
    requires |w.core.store.slots| == MAX_SLOTS && w.core.queue != [] && Lone(w.core.store, w.core.queue, w.completions)
    ensures var w' := WorkStep(w, ok); Lone(w'.core.store, w'.core.queue, w'.completions)
  {
    hide Spent, Waits;
  }

  lemma WorkRecoverable(w: World, ok: bool, owed: int)
    requires |w.core.store.slots| == MAX_SLOTS && w.core.queue != []
    requires Recoverable(w.core.store, w.core.queue, w.core.unsaved, w.flash)
    requires Stamped(w.core.store, w.core.queue, w.core.lost, owed, w.completions)
    ensures
      var w' := WorkStep(w, ok);
      |w'.core.store.slots| == MAX_SLOTS && Recoverable(w'.core.store, w'.core.queue, w'.core.unsaved, w'.flash)
  {
    hide Held, Spoiled, Failed;
    var s, q, w' := w.core.store, w.core.queue, WorkStep(w, ok);
    forall i | IsNvs(i) && s.slots[i].pending && i !in w'.core.unsaved
      ensures Held(w'.flash, w'.core.queue, i, s.slots[i].gen) == Present(s.slots[i].events)
    {
      HeadIsLast(s, q, w.completions, i);
      HeldApplied(w.flash, q, i, s.slots[i].gen, ok);
    }
  }

  /** After a delete that carries its slot's stamp nothing in the queue concerns the slot. */
  lemma HeadIsLast(s: Store, q: seq<Op>, cs: seq<Completion>, i: int)
    requires |s.slots| == MAX_SLOTS && Lone(s, q, cs) && q != [] && IsNvs(i)
    ensures forall k :: 0 < k < |q| && q[0].Delete? && q[0].slot == i && q[0].gen == s.slots[i].gen ==>
              q[k].SaveKnobs? || q[k].slot != i
  {
  }

  lemma WorkKeeps(w: World, ok: bool)
    requires Inv(w) && w.core.queue != []
    ensures Inv(WorkStep(w, ok))
  {
    hide Agrees, Recoverable, Stamped, Total, LeavingHolds;
    WorkAgrees(w, ok, w.core.m.postSave);
    WorkStamped(w, ok, w.core.m.postSave);
    WorkRecoverable(w, ok, w.core.m.postSave);
  }

  lemma CompleteLone(s: Store, q: seq<Op>, cs: seq<Completion>)
    requires |s.slots| == MAX_SLOTS && Lone(s, q, cs) && cs != [] && cs[0].DeleteDone?
    ensures Lone(CompleteDelete(s, cs[0].slot, cs[0].gen, cs[0].ok).0, q, cs[1..])
  {
  }

  lemma CompleteStamped(c: Core, owed: int, cs: seq<Completion>)
    requires |c.store.slots| == MAX_SLOTS
    requires Stamped(c.store, c.queue, c.lost, owed, cs) && cs != [] && cs[0].DeleteDone?
    ensures
      var (s, rc) := CompleteDelete(c.store, cs[0].slot, cs[0].gen, cs[0].ok);
      var c' := Healed(c.(store := s), rc, cs[0].slot);
      |c'.store.slots| == MAX_SLOTS && Stamped(c'.store, c'.queue, c'.lost, owed, cs[1..])
  {
    hide Lone;
    CompleteLone(c.store, c.queue, cs);
    LatestCompletion(c.store, c.queue, cs);
  }

  /** No later completion names the slot of one that carries the slot's stamp, nor does a queued delete. */
  lemma LatestCompletion(s: Store, q: seq<Op>, cs: seq<Completion>)
    requires |s.slots| == MAX_SLOTS && Lone(s, q, cs) && cs != [] && cs[0].DeleteDone?
    ensures
      IsNvs(cs[0].slot) && cs[0].gen == s.slots[cs[0].slot].gen ==>
        && (forall k :: 0 < k < |cs| && cs[k].DeleteDone? ==> cs[k].slot != cs[0].slot)
        && (forall k :: 0 <= k < |q| && q[k].Delete? ==> q[k].slot != cs[0].slot)
  {
  }

  /** What a completion does to flash and RAM taken together. */
  lemma CompleteAgrees(c: Core, owed: int, f: Flash, cs: seq<Completion>)
    requires |c.store.slots| == MAX_SLOTS && cs != [] && cs[0].DeleteDone?
    requires Agrees(c.store, c.queue, c.lost, owed, f) && Recoverable(c.store, c.queue, c.unsaved, f)
    requires Stamped(c.store, c.queue, c.lost, owed, cs) && LeavingHolds(c.store) && PlayingKept(c.store)
    ensures
      var (s, rc) := CompleteDelete(c.store, cs[0].slot, cs[0].gen, cs[0].ok);
      var c' := Healed(c.(store := s), rc, cs[0].slot);
      && |s.slots| == MAX_SLOTS
      && Agrees(c'.store, c'.queue, c'.lost, owed, f) && Recoverable(c'.store, c'.queue, c'.unsaved, f)
  {
    hide Held, Final, Lone;
    LatestCompletion(c.store, c.queue, cs);
    var i, gen := cs[0].slot, cs[0].gen;
    if gen == c.store.slots[i].gen {
      HeldIsFinal(f, c.queue, i, gen);
    }
  }

  /** A completion that still applies never concerns a slot that plays, is selected, or is owed a save. */
  lemma CompleteKeeps(c: Core, deep: State, source: int, owed: int, f: Flash, cs: seq<Completion>)
    requires Body(deep, source, owed, c, f, cs) && cs != [] && cs[0].DeleteDone?
    ensures
      var (s, rc) := CompleteDelete(c.store, cs[0].slot, cs[0].gen, cs[0].ok);
      Body(deep, source, owed, Healed(c.(store := s), rc, cs[0].slot), f, cs[1..])
  {
    hide StoreShape, Agrees, Recoverable, Stamped, CompleteDelete;
    assert c.store.Valid() && LeavingHolds(c.store) && PlayingKept(c.store) by {
      ShapeFacts(deep, source, owed, c.store);
    }
    CompleteAgrees(c, owed, f, cs);
    CompleteStamped(c, owed, cs);
    CompleteShape(c, deep, source, owed, cs);
  }

  lemma ShapeFacts(deep: State, source: int, owed: int, s: Store)
    requires StoreShape(deep, source, owed, s)
    ensures s.Valid() && LeavingHolds(s) && PlayingKept(s)
  {
    hide Total;
  }

  lemma CompleteShape(c: Core, deep: State, source: int, owed: int, cs: seq<Completion>)
    requires |c.store.slots| == MAX_SLOTS && cs != [] && cs[0].DeleteDone?
    requires StoreShape(deep, source, owed, c.store) && Stamped(c.store, c.queue, c.lost, owed, cs)
    ensures StoreShape(deep, source, owed, CompleteDelete(c.store, cs[0].slot, cs[0].gen, cs[0].ok).0)
  {
    hide Total, Lone;
    StepKeepsValid(c.store, c.queue, CompleteOp(cs[0].slot, cs[0].gen, cs[0].ok));
  }

  lemma DeliverKeeps(w: World, gate: Gate)
    requires Inv(w) && w.completions != []
    ensures Inv(DeliverStep(w, gate))
  {
    hide Agrees, Recoverable, Total, LeavingHolds;
    var c, rest := w.core, w.completions[1..];
    match w.completions[0] {
      case DeleteDone(i, gen, ok) =>
        CompleteKeeps(c, Deep(c.m), c.m.moveSource, c.m.postSave, w.flash, w.completions);
        var (s, rc) := CompleteDelete(c.store, i, gen, ok);
        AsyncKeeps(Healed(c.(store := s), rc, i), rc, i, gate, w.flash, rest);
      case SaveFailedOn(i) =>
        AsyncKeeps(c, SaveFailed, i, gate, w.flash, rest);
    }
  }

  lemma AsyncKeeps(c: Core, rc: DmResult, i: int, gate: Gate, f: Flash, cs: seq<Completion>)
    requires Inv(World(c, f, cs))
    ensures Inv(World(DeliverAsync(c, rc, i, gate), f, cs))
  {
    hide Body;
    if c.m.state == Idle {
      match rc {
        case Ok => SayKeeps(c, Idle, Deleted, i, -1, FbDeleted, gate, f, cs);
        case SaveFailed => SayKeeps(c, Idle, ErrorSaveFailed, i, -1, FbSaveFailed, gate, f, cs);
        case DeleteFailed => SayKeeps(c, Idle, ErrorDeleteFailed, i, -1, FbDeleteFailed, gate, f, cs);
        case _ =>
      }
    }
  }

  lemma NextKeeps(w: World, st: Step)
    requires Inv(w) && Enabled(w, st)
    ensures Inv(Next(w, st))
  {
    hide Agrees, Recoverable, Stamped, Total, LeavingHolds;
    match st {
      case Press(cmd, i, gate, knobs) => DispatchKeeps(w.core, cmd, i, gate, knobs, w.flash, w.completions);
      case Key(e, gate) => RecordKeeps(w.core, e, gate, w.flash, w.completions);
      case TypingDone(gate) => FinishKeeps(w.core, gate, w.flash, w.completions);
      case Expire => ExpireKeeps(w);
      case Work(ok) => WorkKeeps(w, ok);
      case Deliver(gate) => DeliverKeeps(w, gate);
      case EraseStart => EraseKeeps(w);
      case EraseEnd => EraseKeeps(w);
      case PlayEnd => PlayEndKeeps(w);
    }
  }
}
