/** A delete that flash refuses: when its completion brings the macro back, flash and RAM agree again. */
module Healing {
  import opened Config
  import opened StoreSpec
  import opened Storage
  import opened MachineSpec
  import opened System
  import opened SystemProofs
  import opened SystemTheorems

  /** The oldest completion reports the failed delete of slot `i`, and nothing has superseded it. */
  predicate BringsBack(w: World, i: int) {
    && |w.core.store.slots| == MAX_SLOTS && IsNvs(i) && w.core.store.slots[i].pending
    && w.completions != [] && w.completions[0] == DeleteDone(i, w.core.store.slots[i].gen, false)
  }

  /** The delivery that changes what a slot shows. */
  predicate ShowsAgain(w: World, st: Step) {
    st.Deliver? && w.completions != [] && w.completions[0].DeleteDone? && BringsBack(w, w.completions[0].slot)
  }

  /** While a message types, only the completion of a failed delete changes what the slots show. */
  lemma TypingKeepsViewsIff(w: World, st: Step)
    requires Inv(w) && IsTyping(w.core.m) && Enabled(w, st) && !st.TypingDone?
    ensures |w.core.store.slots| == |Next(w, st).core.store.slots| == MAX_SLOTS
    ensures SameViews(w.core.store, Next(w, st).core.store) <==> !ShowsAgain(w, st)
  {
    hide Agrees, Recoverable, Total, Final, Lone, TypingFinished, Failed, Spoiled;
    if st.Deliver? && w.completions[0].DeleteDone? {
      var i := w.completions[0].slot;
      assert IsSlot(i) by { SizesFit(); }
      DeliveredViews(w, st.gate, i);
    }
  }

  lemma DeliveredViews(w: World, gate: Gate, i: int)
    requires Inv(w) && IsTyping(w.core.m) && w.completions != []
    requires w.completions[0].DeleteDone? && w.completions[0].slot == i
    ensures
      var s' := DeliverStep(w, gate).core.store;
      && |w.core.store.slots| == |s'.slots| == MAX_SLOTS && IsSlot(i)
      && (forall j :: j != i ==> s'.View(j) == w.core.store.View(j))
      && (s'.View(i) == w.core.store.View(i) <==> !BringsBack(w, i))
  {
    hide Agrees, Recoverable, Total, Final, Lone;
    SizesFit();
  }

  /** A failed delete that takes effect leaves its slot lost exactly when it is unsaved. */
  lemma FailedDeleteHealsIff(w: World, i: int, gate: Gate)
    requires Inv(w) && BringsBack(w, i)
    ensures
      var w' := Next(w, Deliver(gate));
      && |w'.core.store.slots| == MAX_SLOTS && w'.core.store.View(i) == w.core.store.slots[i].events != []
      && (i !in w'.core.lost <==> i !in w.core.unsaved)
      && (i !in w.core.unsaved ==> Final(w'.flash, w'.core.queue, i) == Present(w'.core.store.View(i)))
  {
    hide Agrees, Recoverable, Stamped, Total, Held;
    LastFailedIsLost(w, i);
    if i !in w.core.unsaved {
      FinalAfterFailure(w, i);
    }
  }

  lemma LastFailedIsLost(w: World, i: int)
    requires Inv(w) && BringsBack(w, i)
    ensures i in w.core.lost && i != w.core.m.postSave
  {
  }

  lemma FinalAfterFailure(w: World, i: int)
    requires Inv(w) && BringsBack(w, i) && i !in w.core.unsaved
    ensures Final(w.flash, w.core.queue, i) == Present(w.core.store.slots[i].events)
  {
    hide Held, Final;
    LatestCompletion(w.core.store, w.core.queue, w.completions);
    HeldIsFinal(w.flash, w.core.queue, i, w.core.store.slots[i].gen);
  }

  /**
   * A failed operation leaves its slot lost exactly when nothing queued behind it concerns the slot; a
   * later save or delete makes up for it.
   */
  lemma FailureLosesIff(w: World)
    requires Inv(w) && w.core.queue != [] && !w.core.queue[0].SaveKnobs? && w.core.queue[0].slot !in w.core.lost
    ensures
      var q, i := w.core.queue, w.core.queue[0].slot;
      && (i in Next(w, Work(false)).core.lost
          <==> forall k :: 0 < k < |q| ==> q[k].SaveKnobs? || q[k].slot != i)
      && Next(w, Work(true)).core.lost == w.core.lost
  {
    hide Inv;
    var q, i := w.core.queue, w.core.queue[0].slot;
    if Concerns(q[1..], i) {
      ConcernsSome(q[1..], i);
      var k :| 0 <= k < |q[1..]| && !q[1..][k].SaveKnobs? && q[1..][k].slot == i;
      assert q[k + 1] == q[1..][k];
    } else {
      forall k | 0 < k < |q|
        ensures q[k].SaveKnobs? || q[k].slot != i
      {
        if !q[k].SaveKnobs? && q[k].slot == i {
          ConcernsAt(q[1..], i, k - 1);
        }
      }
    }
  }

  /** A step that may spoil what flash holds for slot `i`, or ask for its delete anew. */
  predicate Disturbs(w: World, st: Step, i: int) {
    || (st.Press? && st.cmd == SlotKey && st.slot == i)
    || (st.Work? && w.core.queue != [] && i in Spoiled(w.core.queue, st.ok))
  }

  lemma UnsavedOnlyByDisturbing(w: World, st: Step, i: int)
    requires |w.core.store.slots| == MAX_SLOTS && Enabled(w, st) && i !in w.core.unsaved && !Disturbs(w, st, i)
    ensures i !in Next(w, st).core.unsaved
  {
    hide Dispatch, Spoiled, Failed, TypingFinished, DeliverStep;
    match st {
      case Press(cmd, j, gate, knobs) => DispatchUnsaved(w.core, cmd, j, gate, knobs, i);
      case Key(e, gate) => DispatchUnsaved(w.core, Overflow, 0, gate, [], i);
      case TypingDone(gate) => FinishUnsaved(w.core, gate);
      case Deliver(gate) => DeliverUnsaved(w, gate);
      case _ =>
    }
  }

  lemma FinishUnsaved(c: Core, gate: Gate)
    requires |c.store.slots| == MAX_SLOTS
    ensures TypingFinished(c, gate).unsaved == c.unsaved
  {
  }

  lemma DeliverUnsaved(w: World, gate: Gate)
    requires |w.core.store.slots| == MAX_SLOTS && w.completions != []
    ensures DeliverStep(w, gate).core.unsaved == w.core.unsaved
  {
    hide Say;
    match w.completions[0] {
      case DeleteDone(i, gen, ok) =>
        var (s, rc) := CompleteDelete(w.core.store, i, gen, ok);
        AsyncUnsaved(Healed(w.core.(store := s), rc, i), rc, i, gate);
      case SaveFailedOn(i) => AsyncUnsaved(w.core, SaveFailed, i, gate);
    }
  }

  lemma AsyncUnsaved(c: Core, rc: DmResult, i: int, gate: Gate)
    requires |c.store.slots| == MAX_SLOTS
    ensures DeliverAsync(c, rc, i, gate).unsaved == c.unsaved
  {
    hide Say;
    SayUnsaved(c, Idle, Deleted, i, -1, FbDeleted, gate);
    SayUnsaved(c, Idle, ErrorSaveFailed, i, -1, FbSaveFailed, gate);
    SayUnsaved(c, Idle, ErrorDeleteFailed, i, -1, FbDeleteFailed, gate);
  }

  lemma SayUnsaved(c: Core, returnTo: State, notice: Notice, slot: int, slot2: int, kind: FbKind, gate: Gate)
    requires |c.store.slots| == MAX_SLOTS
    ensures Say(c, returnTo, notice, slot, slot2, kind, gate).unsaved == c.unsaved
  {
  }

  lemma SlotUnsaved(c: Core, j: int, gate: Gate, i: int)
    requires |c.store.slots| == MAX_SLOTS && j != i
    ensures i in DoSlot(c, j, gate).unsaved ==> i in c.unsaved
  {
    hide SlotAssign, SlotMove, SlotDelete, SlotRecording, SlotPlay, SlotPreview;
    match c.m.state {
      case Recording => assert SlotRecording(c, j, gate).unsaved == c.unsaved by { ChainUnsaved(c, j, gate); }
      case PendingAssign => AssignUnsaved(c, j, gate, i);
      case DeletePending => DeleteUnsaved(c, j, gate, i);
      case MovePending => MoveUnsaved(c, j, gate, i);
      case _ => OthersUnsaved(c, j, gate);
    }
  }

  lemma ChainUnsaved(c: Core, j: int, gate: Gate)
    requires |c.store.slots| == MAX_SLOTS
    ensures SlotRecording(c, j, gate).unsaved == c.unsaved
  {
  }

  lemma OthersUnsaved(c: Core, j: int, gate: Gate)
    requires |c.store.slots| == MAX_SLOTS
    ensures SlotPreview(c, j, gate).unsaved == SlotPlay(c, j, gate).unsaved == c.unsaved
  {
  }

  lemma AssignEmptyUnsaved(c: Core, j: int, gate: Gate)
    requires |c.store.slots| == MAX_SLOTS
    ensures AssignEmpty(c, j, gate).unsaved == c.unsaved
  {
    hide Total;
  }

  lemma AssignUnsaved(c: Core, j: int, gate: Gate, i: int)
    requires |c.store.slots| == MAX_SLOTS && j != i
    ensures i in SlotAssign(c, j, gate).unsaved ==> i in c.unsaved
  {
    hide AssignEmpty, Say;
    var c0 := c.(armed := false);
    var c1 := StoreDelete(c0, j).0;
    AssignEmptyUnsaved(c0, j, gate);
    AssignEmptyUnsaved(c1, j, gate);
    SayUnsaved(c0, PendingAssign, ErrorSlotOccupied, j, -1, FbSlotFull, gate);
    SayUnsaved(c1, PendingAssign, ErrorDeleteQueueFull, j, -1, FbDeleteQfull, gate);
  }

  lemma DeleteUnsaved(c: Core, j: int, gate: Gate, i: int)
    requires |c.store.slots| == MAX_SLOTS && j != i
    ensures i in SlotDelete(c, j, gate).unsaved ==> i in c.unsaved
  {
    hide Say;
    var c0 := c.(armed := false);
    var c1 := StoreDelete(c0, j).0;
    SayUnsaved(c0, Idle, ErrorSlotEmpty, j, -1, FbSlotEmpty, gate);
    SayUnsaved(c1, Idle, ErrorDeleteQueueFull, j, -1, FbDeleteQfull, gate);
    SayUnsaved(c1, Idle, Deleted, j, -1, FbDeleted, gate);
  }

  lemma MoveIntoUnsaved(c: Core, src: int, dst: int, gate: Gate)
    requires |c.store.slots| == MAX_SLOTS
    ensures MoveInto(c, src, dst, gate).unsaved == c.unsaved
  {
    hide Say;
    var (c1, rc) := StoreMove(c.(m := c.m.(moveSource := -1), armed := false), src, dst);
    SayUnsaved(c1, Idle, ErrorTooLarge, dst, -1, FbTooLarge, gate);
    SayUnsaved(c1, Idle, ErrorSaveQueueFull, dst, -1, FbSaveQfull, gate);
    SayUnsaved(c1, Idle, ErrorDeleteQueueFull, src, -1, FbDeleteQfull, gate);
    SayUnsaved(c1, Idle, Moved, dst, src, FbMoved, gate);
  }

  lemma MoveUnsaved(c: Core, j: int, gate: Gate, i: int)
    requires |c.store.slots| == MAX_SLOTS && j != i
    ensures i in SlotMove(c, j, gate).unsaved ==> i in c.unsaved
  {
    hide MoveInto, Say;
    var src, c1 := c.m.moveSource, StoreDelete(c, j).0;
    MoveIntoUnsaved(c, src, j, gate);
    MoveIntoUnsaved(c1, src, j, gate);
    SayUnsaved(c, MovePending, ErrorSlotEmpty, j, -1, FbSlotEmpty, gate);
    SayUnsaved(c.(m := c.m.(moveSource := j)), MovePending, MoveSrcSelected, j, -1, FbMoveSrc, gate);
    SayUnsaved(c.(m := c.m.(moveSource := -1), armed := false), Idle, MoveCancelled, -1, -1, FbMoveCancel, gate);
    SayUnsaved(c, MovePending, ErrorSlotOccupied, j, -1, FbSlotFull, gate);
    SayUnsaved(c1, MovePending, ErrorDeleteQueueFull, j, -1, FbDeleteQfull, gate);
  }

  lemma DispatchUnsaved(c: Core, cmd: Command, j: int, gate: Gate, knobs: seq<Op>, i: int)
    requires |c.store.slots| == MAX_SLOTS && (cmd == SlotKey ==> j != i)
    ensures i in Dispatch(c, cmd, j, gate, knobs).unsaved ==> i in c.unsaved
  {
    hide DoSlot, DoRec, DoStop, DoOverflow, DoMoveMode, DoStatus, DoKnob;
    TakesUnsaved(c, gate);
    ModesUnsaved(c, gate, knobs);
    if cmd == SlotKey {
      SlotUnsaved(c, j, gate, i);
    }
  }

  lemma TakesUnsaved(c: Core, gate: Gate)
    requires |c.store.slots| == MAX_SLOTS
    ensures DoRec(c, gate).unsaved == DoStop(c, gate).unsaved == DoOverflow(c, gate).unsaved == c.unsaved
  {
    hide Say;
    SayUnsaved(c.(armed := false, store := DraftReset(c.store)), Recording, RecordingStarted, -1, -1, FbRec, gate);
    SayUnsaved(c, Idle, ErrorNoRecording, -1, -1, FbNoRec, gate);
    SayUnsaved(c, PendingAssign, RecordingStopped, -1, -1, FbStop, gate);
    SayUnsaved(c, PendingAssign, ErrorOverflow, -1, -1, FbOverflow, gate);
  }

  lemma ModesUnsaved(c: Core, gate: Gate, knobs: seq<Op>)
    requires |c.store.slots| == MAX_SLOTS
    ensures DoMoveMode(c, gate).unsaved == DoStatus(c, gate).unsaved == DoKnob(c, gate, knobs).unsaved == c.unsaved
  {
    hide Say, TypingFinished;
    SayUnsaved(c.(m := c.m.(moveSource := -1)), MovePending, MovePrompt, -1, -1, FbMovePrompt, gate);
    FinishUnsaved(Voice(EnterTyping(c, Idle), FbStatusHeader, -1, -1), gate);
    var c1 := Notify(EnterTyping(c, Idle), SettingsChanged, -1, -1);
    FinishUnsaved(Voice(c1.(queue := WithKnobs(c1.queue, knobs)), FbKnob, -1, -1), gate);
  }

  /** No step of the run disturbs slot `i`. */
  ghost predicate Undisturbed(w: World, steps: seq<Step>, i: int)
    requires Legal(w, steps)
    decreases |steps|
  {
    steps == [] || (!Disturbs(w, steps[0], i) && Undisturbed(Next(w, steps[0]), steps[1..], i))
  }

  lemma {:induction false} StaysSaved(w: World, steps: seq<Step>, i: int)
    requires Inv(w) && Legal(w, steps) && i !in w.core.unsaved && Undisturbed(w, steps, i)
    ensures Inv(RunTo(w, steps)) && i !in RunTo(w, steps).core.unsaved
    decreases |steps|
  {
    hide Inv, Next, Enabled, Disturbs;
    if steps != [] {
      InvSlots(w);
      NextKeeps(w, steps[0]);
      UnsavedOnlyByDisturbing(w, steps[0], i);
      StaysSaved(Next(w, steps[0]), steps[1..], i);
    }
  }

  lemma InvSlots(w: World)
    requires Inv(w)
    ensures |w.core.store.slots| == MAX_SLOTS
  {
  }

  /** The delete of a slot that agrees with flash, at the moment it is accepted. */
  lemma AcceptedDelete(w: World, i: int, gate: Gate)
    requires Inv(w) && w.core.m.state == DeletePending && IsNvs(i) && i !in w.core.lost
    requires |w.core.store.slots| == MAX_SLOTS && !w.core.store.IsEmpty(i) && |w.core.queue| < QUEUE_LEN
    ensures i !in Next(w, Press(SlotKey, i, gate, [])).core.unsaved
  {
    hide Total;
  }

  /**
   * A failed delete of a slot that agreed heals: ask for the delete of a slot that is not lost, let
   * anything happen that does not spoil its entry, and when its failure is delivered the macro is back
   * and flash will hold it.
   */
  lemma AgreeingDeleteHeals(w: World, i: int, gate: Gate, steps: seq<Step>, last: Gate)
    requires Inv(w) && w.core.m.state == DeletePending && IsNvs(i) && i !in w.core.lost
    requires |w.core.store.slots| == MAX_SLOTS && !w.core.store.IsEmpty(i) && |w.core.queue| < QUEUE_LEN
    requires Legal(Next(w, Press(SlotKey, i, gate, [])), steps)
    requires Undisturbed(Next(w, Press(SlotKey, i, gate, [])), steps, i)
    requires BringsBack(RunTo(Next(w, Press(SlotKey, i, gate, [])), steps), i)
    ensures
      var failed := RunTo(Next(w, Press(SlotKey, i, gate, [])), steps);
      var w' := Next(failed, Deliver(last));
      && |w'.core.store.slots| == MAX_SLOTS && i !in w'.core.lost
      && w'.core.store.View(i) == failed.core.store.slots[i].events != []
      && Final(w'.flash, w'.core.queue, i) == Present(w'.core.store.View(i))
  {
    hide Inv, Next, Legal, RunTo, Final;
    var w1 := Next(w, Press(SlotKey, i, gate, []));
    NextKeeps(w, Press(SlotKey, i, gate, []));
    AcceptedDelete(w, i, gate);
    StaysSaved(w1, steps, i);
    FailedDeleteHealsIff(RunTo(w1, steps), i, last);
  }
}
