/** Timers and feedback levels: what every run of the composed firmware keeps about its modes. */
module SystemModes {
  import opened Config
  import opened StoreSpec
  import opened StoreLaws
  import opened MachineSpec
  import opened System
  import opened SystemProofs
  import opened SystemTheorems

  // ---- pending modes expire ----------------------------------------------------------------

  /** The state an erase, if one is under way, will give back. */
  function Resting(m: Machine): State { if m.state == TypingErase then m.eraseReturn else m.state }

  /** A pending mode has its timer running, and the timer runs only for a pending mode. */
  predicate Watched(c: Core) {
    && (IsPending(Resting(c.m)) ==> c.armed)
    && (c.armed ==> IsPending(Deep(c.m)))
  }

  /** What every transition that may speak leaves behind. */
  predicate Timed(c: Core) { Watched(c) && c.m.state != TypingErase }

  /** The timer fires while an erase hides the pending mode: it is swallowed and not re-armed. */
  predicate Swallows(w: World, st: Step) {
    st == Expire && w.core.m.state == TypingErase && IsPending(w.core.m.eraseReturn)
  }

  lemma FinishWatched(c: Core, gate: Gate)
    requires |c.store.slots| == MAX_SLOTS && c.m.state == TypingFeedback && Settled(c.m.returnState)
    requires c.armed ==> IsPending(c.m.returnState)
    ensures Timed(TypingFinished(c, gate))
  {
  }

  /** What a transition must have done to the timer by the time it speaks. */
  lemma SayWatched(c: Core, returnTo: State, notice: Notice, slot: int, slot2: int, kind: FbKind, gate: Gate)
    requires |c.store.slots| == MAX_SLOTS && Settled(returnTo) && (c.armed ==> IsPending(returnTo))
    ensures Timed(Say(c, returnTo, notice, slot, slot2, kind, gate))
  {
    hide TypingFinished;
    FinishWatched(Announced(c, returnTo, notice, slot, slot2, kind), gate);
  }

  lemma SlotWatched(c: Core, i: int, gate: Gate)
    requires c.store.Valid() && Settled(c.m.state) && Watched(c)
    ensures Timed(DoSlot(c, i, gate))
  {
    hide Total, Timed, TypingFinished, Say;
    match c.m.state {
      case Recording => RecordingWatched(c, i, gate);
      case PendingAssign => AssignWatched(c, i, gate);
      case DeletePending => DeleteWatched(c, i, gate);
      case MovePending => MoveWatched(c, i, gate);
      case PreviewPending => FinishWatched(Notify(EnterTyping(c.(armed := false), Idle), PreviewReady, i, -1), gate);
      case Idle => PlayWatched(c, i, gate);
    }
  }

  lemma RecordingWatched(c: Core, i: int, gate: Gate)
    requires c.store.Valid() && c.m.state == Recording && Watched(c)
    ensures Timed(SlotRecording(c, i, gate))
  {
    hide Total, Say;
    var s := DraftChain(c.store, i).0;
    SayWatched(c, Recording, ErrorSlotEmpty, i, -1, FbChainEmpty, gate);
    SayWatched(c, Recording, ErrorChainFull, i, -1, FbChainNoRoom, gate);
    SayWatched(c.(store := s), Recording, ChainInserted, i, -1, FbChainInsert, gate);
  }

  lemma AssignEmptyWatched(c: Core, i: int, gate: Gate)
    requires c.store.Valid() && !c.armed
    ensures Timed(AssignEmpty(c, i, gate))
  {
    hide Total, Say, Timed;
    var c1 := StoreCommit(c, i).0;
    SayWatched(c1, PendingAssign, ErrorTooLarge, i, -1, FbTooLarge, gate);
    SayWatched(c1, PendingAssign, ErrorSlotOccupied, i, -1, FbSlotFull, gate);
    SayWatched(c1.(m := c1.m.(postSave := i)), Idle, Saved, i, -1, FbSaved, gate);
  }

  lemma AssignWatched(c: Core, i: int, gate: Gate)
    requires c.store.Valid()
    ensures Timed(SlotAssign(c, i, gate))
  {
    hide Total, Say, Timed, AssignEmpty;
    var c0 := c.(armed := false);
    StepKeepsValid(c.store, c.queue, DeleteOp(i));
    var c1 := StoreDelete(c0, i).0;
    AssignEmptyWatched(c0, i, gate);
    AssignEmptyWatched(c1, i, gate);
    SayWatched(c0, PendingAssign, ErrorSlotOccupied, i, -1, FbSlotFull, gate);
    SayWatched(c1, PendingAssign, ErrorDeleteQueueFull, i, -1, FbDeleteQfull, gate);
  }

  lemma DeleteWatched(c: Core, i: int, gate: Gate)
    requires c.store.Valid()
    ensures Timed(SlotDelete(c, i, gate))
  {
    hide Total, Say, Timed;
    var c0 := c.(armed := false);
    var c1 := StoreDelete(c0, i).0;
    SayWatched(c0, Idle, ErrorSlotEmpty, i, -1, FbSlotEmpty, gate);
    SayWatched(c1, Idle, ErrorDeleteQueueFull, i, -1, FbDeleteQfull, gate);
    SayWatched(c1, Idle, Deleted, i, -1, FbDeleted, gate);
    FinishWatched(EnterTyping(c1, Idle), gate);
  }

  lemma MoveIntoWatched(c: Core, src: int, dst: int, gate: Gate)
    requires c.store.Valid()
    ensures Timed(MoveInto(c, src, dst, gate))
  {
    hide Total, Say, Timed;
    var c1 := StoreMove(c.(m := c.m.(moveSource := -1), armed := false), src, dst).0;
    SayWatched(c1, Idle, ErrorTooLarge, dst, -1, FbTooLarge, gate);
    SayWatched(c1, Idle, ErrorSaveQueueFull, dst, -1, FbSaveQfull, gate);
    SayWatched(c1, Idle, ErrorDeleteQueueFull, src, -1, FbDeleteQfull, gate);
    SayWatched(c1, Idle, Moved, dst, src, FbMoved, gate);
  }

  lemma MoveWatched(c: Core, i: int, gate: Gate)
    requires c.store.Valid() && c.m.state == MovePending && Watched(c)
    ensures Timed(SlotMove(c, i, gate))
  {
    hide Total, Say, Timed, MoveInto;
    var src := c.m.moveSource;
    StepKeepsValid(c.store, c.queue, DeleteOp(i));
    var c1 := StoreDelete(c, i).0;
    SayWatched(c, MovePending, ErrorSlotEmpty, i, -1, FbSlotEmpty, gate);
    SayWatched(c.(m := c.m.(moveSource := i)), MovePending, MoveSrcSelected, i, -1, FbMoveSrc, gate);
    SayWatched(c.(m := c.m.(moveSource := -1), armed := false), Idle, MoveCancelled, -1, -1, FbMoveCancel, gate);
    SayWatched(c, MovePending, ErrorSlotOccupied, i, -1, FbSlotFull, gate);
    SayWatched(c1, MovePending, ErrorDeleteQueueFull, i, -1, FbDeleteQfull, gate);
    MoveIntoWatched(c, src, i, gate);
    MoveIntoWatched(c1, src, i, gate);
  }

  lemma PlayWatched(c: Core, i: int, gate: Gate)
    requires c.store.Valid() && c.m.state == Idle && Watched(c)
    ensures Timed(SlotPlay(c, i, gate))
  {
    hide Total, Say;
    SayWatched(c, Idle, ErrorSlotEmpty, i, -1, FbSlotEmpty, gate);
  }

  lemma OthersWatched(c: Core, gate: Gate, knobs: seq<Op>)
    requires c.store.Valid()
    ensures Timed(DoRec(c, gate))
    ensures !c.armed ==> Timed(DoStop(c, gate)) && Timed(DoOverflow(c, gate))
    ensures !c.armed ==> Timed(DoMoveMode(c, gate)) && Timed(DoStatus(c, gate)) && Timed(DoKnob(c, gate, knobs))
  {
    hide Total, Say, Timed;
    SayWatched(c.(armed := false, store := DraftReset(c.store)), Recording, RecordingStarted, -1, -1, FbRec, gate);
    if !c.armed {
      SayWatched(c, Idle, ErrorNoRecording, -1, -1, FbNoRec, gate);
      SayWatched(c, PendingAssign, RecordingStopped, -1, -1, FbStop, gate);
      SayWatched(c, PendingAssign, ErrorOverflow, -1, -1, FbOverflow, gate);
      SayWatched(c.(m := c.m.(moveSource := -1)), MovePending, MovePrompt, -1, -1, FbMovePrompt, gate);
      FinishWatched(Voice(EnterTyping(c, Idle), FbStatusHeader, -1, -1), gate);
      SpokenWatched(c, gate, knobs);
    }
  }

  lemma SpokenWatched(c: Core, gate: Gate, knobs: seq<Op>)
    requires c.store.Valid() && !c.armed
    ensures Timed(Speak(EnterTyping(c, Idle), FbStatusHeader, -1, -1, gate)) && Timed(DoKnob(c, gate, knobs))
  {
    hide Total;
  }

  lemma DispatchWatched(c: Core, cmd: Command, i: int, gate: Gate, knobs: seq<Op>)
    requires c.store.Valid() && MachineShape(c.m) && Watched(c)
    ensures Watched(Dispatch(c, cmd, i, gate, knobs))
    ensures c.m.state != TypingErase ==> Dispatch(c, cmd, i, gate, knobs).m.state != TypingErase
  {
    hide Total, DoSlot, DoRec, DoStop, DoOverflow, DoMoveMode, DoStatus, DoKnob;
    if Allowed(c.m.state, cmd) {
      assert Resting(c.m) == c.m.state == Deep(c.m);
      OthersWatched(c, gate, knobs);
      if cmd == SlotKey {
        SlotWatched(c, i, gate);
      }
    }
  }

  lemma AsyncWatched(c: Core, rc: DmResult, i: int, gate: Gate)
    requires c.store.Valid() && Watched(c)
    ensures Watched(DeliverAsync(c, rc, i, gate))
    ensures c.m.state != TypingErase ==> DeliverAsync(c, rc, i, gate).m.state != TypingErase
  {
    hide Total, Say;
    if c.m.state == Idle {
      SayWatched(c, Idle, Deleted, i, -1, FbDeleted, gate);
      SayWatched(c, Idle, ErrorSaveFailed, i, -1, FbSaveFailed, gate);
      SayWatched(c, Idle, ErrorDeleteFailed, i, -1, FbDeleteFailed, gate);
    }
  }

  lemma DeliverWatched(w: World, gate: Gate)
    requires w.core.store.Valid() && Watched(w.core) && w.completions != []
    ensures Watched(DeliverStep(w, gate).core)
    ensures w.core.m.state != TypingErase ==> DeliverStep(w, gate).core.m.state != TypingErase
  {
    hide Total, DeliverAsync;
    match w.completions[0] {
      case DeleteDone(i, gen, ok) =>
        StepKeepsValid(w.core.store, w.core.queue, CompleteOp(i, gen, ok));
        var (s, rc) := CompleteDelete(w.core.store, i, gen, ok);
        AsyncWatched(Healed(w.core.(store := s), rc, i), rc, i, gate);
      case SaveFailedOn(i) => AsyncWatched(w.core, SaveFailed, i, gate);
    }
  }

  /** One step keeps pending modes watched exactly when it is not a timer swallowed by an erase. */
  lemma WatchedUnlessSwallowed(w: World, st: Step)
    requires Inv(w) && Enabled(w, st) && Watched(w.core)
    ensures Watched(Next(w, st).core) <==> !Swallows(w, st)
    ensures w.core.m.state != TypingErase && st != EraseStart ==> Next(w, st).core.m.state != TypingErase
  {
    hide Agrees, Recoverable, Stamped, Total, LeavingHolds, Dispatch, TypingFinished;
    match st {
      case Press(cmd, i, gate, knobs) => DispatchWatched(w.core, cmd, i, gate, knobs);
      case Key(e, gate) => DispatchWatched(w.core, Overflow, 0, gate, []);
      case TypingDone(gate) => FinishWatched(w.core, gate);
      case Deliver(gate) => DeliverWatched(w, gate);
      case _ =>
    }
  }

  ghost predicate EverSwallows(w: World, steps: seq<Step>)
    requires Legal(w, steps)
    decreases |steps|
  {
    steps != [] && (Swallows(w, steps[0]) || EverSwallows(Next(w, steps[0]), steps[1..]))
  }

  lemma {:induction false} RunWatched(w: World, steps: seq<Step>)
    requires Inv(w) && Watched(w.core) && Legal(w, steps) && !EverSwallows(w, steps)
    ensures Watched(RunTo(w, steps).core) && Inv(RunTo(w, steps))
    decreases |steps|
  {
    hide Inv, Watched;
    if steps != [] {
      NextKeeps(w, steps[0]);
      WatchedUnlessSwallowed(w, steps[0]);
      RunWatched(Next(w, steps[0]), steps[1..]);
    }
  }

  lemma {:induction false} NoEraseNoSwallow(w: World, steps: seq<Step>)
    requires Inv(w) && Watched(w.core) && Legal(w, steps) && EraseStart !in steps && w.core.m.state != TypingErase
    ensures !EverSwallows(w, steps) && RunTo(w, steps).core.m.state != TypingErase
    decreases |steps|
  {
    hide Agrees, Recoverable, Stamped, Total, LeavingHolds, StoreShape;
    if steps != [] {
      NextKeeps(w, steps[0]);
      WatchedUnlessSwallowed(w, steps[0]);
      NoEraseNoSwallow(Next(w, steps[0]), steps[1..]);
    }
  }

  /**
   * In every run without auto-erase, a resting pending mode has its timer running, firing it gives
   * up the mode with a notification, and no timer runs for anything else.
   */
  lemma PendingModesExpire(w0: World, steps: seq<Step>)
    requires Booted(w0) && Legal(w0, steps) && EraseStart !in steps
    ensures var w := RunTo(w0, steps);
      && (IsPending(w.core.m.state) ==>
            && |w.core.store.slots| == MAX_SLOTS && Enabled(w, Expire)
            && Next(w, Expire).core.m.state == Idle
            && Next(w, Expire).core.notes == w.core.notes + [Note(PendingCancelled, -1, -1, Idle)])
      && (w.core.armed ==> IsPending(w.core.m.Effective()))
  {
    hide Agrees, Recoverable, Stamped, Total, LeavingHolds;
    BootKeeps(w0);
    NoEraseNoSwallow(w0, steps);
    RunWatched(w0, steps);
  }

  /**
   * With auto-erase the promise fails: after the move prompt's erase begins, the timer fires into
   * TYPING_ERASE, is ignored, and the erase gives back MOVE_PENDING with nothing left to end it.
   */
  lemma SwallowedTimeoutStrandsMode(w0: World)
    requires Booted(w0)
    ensures
      var steps := [Press(Mov, -1, {FbMovePrompt}, []), TypingDone({}), EraseStart, Expire, EraseEnd];
      && Legal(w0, steps)
      && RunTo(w0, steps).core.m.state == MovePending && !RunTo(w0, steps).core.armed
  {
    hide Agrees, Recoverable, Stamped, Total;
    var st := Press(Mov, -1, {FbMovePrompt}, []);
    var w1 := Next(w0, st);
    var w2 := Next(w1, TypingDone({}));
    var w3 := Next(w2, EraseStart);
    var w4 := Next(w3, Expire);
    RunOne(w0, st, [TypingDone({}), EraseStart, Expire, EraseEnd]);
    RunOne(w1, TypingDone({}), [EraseStart, Expire, EraseEnd]);
    RunOne(w2, EraseStart, [Expire, EraseEnd]);
    RunOne(w3, Expire, [EraseEnd]);
    RunOne(w4, EraseEnd, []);
    assert [st, TypingDone({}), EraseStart, Expire, EraseEnd] == [st] + [TypingDone({}), EraseStart, Expire, EraseEnd];
    assert [TypingDone({}), EraseStart, Expire, EraseEnd] == [TypingDone({})] + [EraseStart, Expire, EraseEnd];
    assert [EraseStart, Expire, EraseEnd] == [EraseStart] + [Expire, EraseEnd];
    assert [Expire, EraseEnd] == [Expire] + [EraseEnd];
    assert [EraseEnd] == [EraseEnd] + [];
  }

  // ---- what an erase gives back -----------------------------------------------------------------

  predicate SameErase(c: Core, c': Core) {
    c'.m.eraseActive == c.m.eraseActive && c'.m.eraseReturn == c.m.eraseReturn
  }

  lemma SlotKeepsErase(c: Core, i: int, gate: Gate)
    requires |c.store.slots| == MAX_SLOTS
    ensures SameErase(c, SlotAssign(c, i, gate)) && SameErase(c, SlotDelete(c, i, gate))
  {
    hide Say, TypingFinished, DeleteSlot, DraftCommit;
  }

  lemma MoveKeepsErase(c: Core, i: int, gate: Gate)
    requires |c.store.slots| == MAX_SLOTS
    ensures SameErase(c, SlotMove(c, i, gate))
  {
    hide Say, TypingFinished, DeleteSlot, Move;
  }

  lemma DispatchKeepsErase(c: Core, cmd: Command, i: int, gate: Gate, knobs: seq<Op>)
    requires |c.store.slots| == MAX_SLOTS
    ensures SameErase(c, Dispatch(c, cmd, i, gate, knobs))
  {
    hide TypingFinished, SlotAssign, SlotDelete, SlotMove, DraftChain;
    SlotKeepsErase(c, i, gate);
    MoveKeepsErase(c, i, gate);
  }

  /** No transition touches the erase bookkeeping. */
  lemma EraseFlagKept(w: World, st: Step)
    requires |w.core.store.slots| == MAX_SLOTS && Enabled(w, st) && st != EraseStart && st != EraseEnd
    ensures SameErase(w.core, Next(w, st).core)
  {
    hide TypingFinished, Dispatch, CompleteDelete, Storage.Work;
    match st {
      case Press(cmd, i, gate, knobs) => DispatchKeepsErase(w.core, cmd, i, gate, knobs);
      case Key(e, gate) => DispatchKeepsErase(w.core, Overflow, 0, gate, []);
      case _ =>
    }
  }

  /** Every erase of the run begins while no cue types. */
  ghost predicate ErasesBetweenCues(w: World, steps: seq<Step>)
    requires Legal(w, steps)
    decreases |steps|
  {
    steps == [] ||
    ((steps[0] == EraseStart ==> w.core.m.state != TypingFeedback) && ErasesBetweenCues(Next(w, steps[0]), steps[1..]))
  }

  /**
   * If no erase is due when a cue types, the state an erase will give back is always a settled one;
   * an erase that begins during a cue parks TYPING_FEEDBACK itself.
   */
  lemma {:induction false} ParkedStateIsSettled(w: World, steps: seq<Step>)
    requires Inv(w) && Legal(w, steps) && ErasesBetweenCues(w, steps)
    requires w.core.m.eraseActive ==> Settled(w.core.m.eraseReturn)
    ensures RunTo(w, steps).core.m.eraseActive ==> Settled(RunTo(w, steps).core.m.eraseReturn)
    decreases |steps|
  {
    hide Body, Total;
    if steps != [] {
      var w1 := Next(w, steps[0]);
      NextKeeps(w, steps[0]);
      if steps[0] != EraseStart && steps[0] != EraseEnd {
        EraseFlagKept(w, steps[0]);
      }
      ParkedStateIsSettled(w1, steps[1..]);
    }
  }

  lemma CueParkedByErase(w: World)
    requires Inv(w) && w.core.m.state == TypingFeedback
    ensures Next(w, EraseStart).core.m.eraseActive && !Settled(Next(w, EraseStart).core.m.eraseReturn)
  {
    hide Body;
  }

  // ---- a cue that never finishes --------------------------------------------------------------

  /** What a step that is not typing_finished can do while a cue, erased or not, is typing. */
  lemma TypingHolds(w: World, st: Step)
    requires |w.core.store.slots| == MAX_SLOTS && MachineShape(w.core.m) && IsTyping(w.core.m)
    requires Enabled(w, st) && !st.TypingDone?
    ensures
      var w' := Next(w, st);
      && |w'.core.store.slots| == MAX_SLOTS && MachineShape(w'.core.m) && IsTyping(w'.core.m)
      && w'.core.m.returnState == w.core.m.returnState && w'.core.notes == w.core.notes
      && w'.core.store.draft == w.core.store.draft && (st.Press? ==> w' == w)
  {
    hide Failed, TypingFinished;
  }

  ghost predicate NeverDone(steps: seq<Step>) { forall k :: 0 <= k < |steps| ==> !steps[k].TypingDone? }

  /**
   * Only typing_finished leaves a typing state. Once a cue can no longer report it, then whatever
   * storage, timers and erases do, no press has any effect and nothing is ever announced again.
   */
  lemma {:induction false} LostCueFreezes(w: World, steps: seq<Step>, st: Step)
    requires |w.core.store.slots| == MAX_SLOTS && MachineShape(w.core.m) && IsTyping(w.core.m)
    requires Legal(w, steps) && NeverDone(steps) && st.Press? && Enabled(RunTo(w, steps), st)
    ensures
      var w' := RunTo(w, steps);
      && IsTyping(w'.core.m) && w'.core.m.returnState == w.core.m.returnState && w'.core.notes == w.core.notes
      && |w'.core.store.slots| == MAX_SLOTS && Next(w', st) == w'
    decreases |steps|
  {
    hide Next, MachineShape, IsTyping, Enabled;
    if steps == [] {
      TypingHolds(w, st);
    } else {
      TypingHolds(w, steps[0]);
      LostCueFreezes(Next(w, steps[0]), steps[1..], st);
    }
  }

  /** The queue-full cue of an owed save puts the machine in such a state, from inside typing_finished. */
  lemma QueueFullCueIsTyping(w: World, gate: Gate)
    requires Inv(w) && Enabled(w, TypingDone(gate)) && FbSaveQfull in gate
    requires IsNvs(w.core.m.postSave) && |w.core.queue| >= QUEUE_LEN
    ensures
      var w' := Next(w, TypingDone(gate));
      && |w'.core.store.slots| == MAX_SLOTS && MachineShape(w'.core.m) && IsTyping(w'.core.m)
      && w'.core.notes == w.core.notes + [Note(ErrorSaveQueueFull, w.core.m.postSave, -1, w.core.m.returnState)]
  {
    hide Agrees, Recoverable, Stamped, Total;
  }

  // ---- feedback levels ---------------------------------------------------------------------

  /** Let a cue, and the cue its owed save may raise, type to the end. */
  function Drain(c: Core, g1: Gate, g2: Gate): Core
    requires |c.store.slots| == MAX_SLOTS
  {
    if c.m.state != TypingFeedback then c
    else
      var c1 := TypingFinished(c, g1);
      if c1.m.state != TypingFeedback then c1 else TypingFinished(c1, g2)
  }

  /** The same step with every message below the feedback level. */
  function Quiet(st: Step): Step {
    match st
    case Press(cmd, i, _, knobs) => Press(cmd, i, {}, knobs)
    case Key(e, _) => Key(e, {})
    case TypingDone(_) => TypingDone({})
    case Deliver(_) => Deliver({})
    case _ => st
  }

  /** What a transition that spoke under some level must look like, given its silent outcome. */
  ghost predicate SameAfterDrain(loud: Core, quiet: Core, before: seq<Note>) {
    && |loud.store.slots| == MAX_SLOTS
    && (forall g1, g2 :: Drain(loud, g1, g2) == quiet)
    && quiet.m.state != TypingFeedback
    && before <= quiet.notes
    && forall k :: |before| <= k < |quiet.notes| ==> quiet.notes[k].mode == quiet.m.state
  }

  lemma FinishLevels(c: Core, gate: Gate, before: seq<Note>)
    requires |c.store.slots| == MAX_SLOTS && c.m.state == TypingFeedback && Settled(c.m.returnState)
    requires before <= c.notes && forall k :: |before| <= k < |c.notes| ==> c.notes[k].mode == c.m.returnState
    ensures SameAfterDrain(TypingFinished(c, gate), TypingFinished(c, {}), before)
    ensures SameAfterDrain(c, TypingFinished(c, {}), before)
  {
  }

  lemma SayLevels(c: Core, returnTo: State, notice: Notice, slot: int, slot2: int, kind: FbKind, gate: Gate)
    requires |c.store.slots| == MAX_SLOTS && Settled(returnTo)
    ensures
      var loud := Say(c, returnTo, notice, slot, slot2, kind, gate);
      var quiet := Say(c, returnTo, notice, slot, slot2, kind, {});
      SameAfterDrain(loud, quiet, c.notes)
  {
    hide TypingFinished, SameAfterDrain;
    FinishLevels(Announced(c, returnTo, notice, slot, slot2, kind), gate, c.notes);
  }

  lemma RecordingLevels(c: Core, i: int, gate: Gate)
    requires c.store.Valid()
    ensures SameAfterDrain(SlotRecording(c, i, gate), SlotRecording(c, i, {}), c.notes)
  {
    hide Total, Say, SameAfterDrain;
    StepKeepsValid(c.store, c.queue, ChainOp(i));
    var s := DraftChain(c.store, i).0;
    SayLevels(c, Recording, ErrorSlotEmpty, i, -1, FbChainEmpty, gate);
    SayLevels(c, Recording, ErrorChainFull, i, -1, FbChainNoRoom, gate);
    SayLevels(c.(store := s), Recording, ChainInserted, i, -1, FbChainInsert, gate);
  }

  lemma AssignEmptyLevels(c: Core, i: int, gate: Gate)
    requires c.store.Valid()
    ensures SameAfterDrain(AssignEmpty(c, i, gate), AssignEmpty(c, i, {}), c.notes)
  {
    hide Total, Say, SameAfterDrain;
    StepKeepsValid(c.store, c.queue, CommitOp(i));
    var c1 := StoreCommit(c, i).0;
    SayLevels(c1, PendingAssign, ErrorTooLarge, i, -1, FbTooLarge, gate);
    SayLevels(c1, PendingAssign, ErrorSlotOccupied, i, -1, FbSlotFull, gate);
    SayLevels(c1.(m := c1.m.(postSave := i)), Idle, Saved, i, -1, FbSaved, gate);
  }

  lemma AssignLevels(c: Core, i: int, gate: Gate)
    requires c.store.Valid()
    ensures SameAfterDrain(SlotAssign(c, i, gate), SlotAssign(c, i, {}), c.notes)
  {
    hide Total, Say, SameAfterDrain, AssignEmpty;
    var c0 := c.(armed := false);
    StepKeepsValid(c.store, c.queue, DeleteOp(i));
    var c1 := StoreDelete(c0, i).0;
    AssignEmptyLevels(c0, i, gate);
    AssignEmptyLevels(c1, i, gate);
    SayLevels(c0, PendingAssign, ErrorSlotOccupied, i, -1, FbSlotFull, gate);
    SayLevels(c1, PendingAssign, ErrorDeleteQueueFull, i, -1, FbDeleteQfull, gate);
  }

  lemma DeleteLevels(c: Core, i: int, gate: Gate)
    requires c.store.Valid()
    ensures SameAfterDrain(SlotDelete(c, i, gate), SlotDelete(c, i, {}), c.notes)
  {
    hide Total, Say, SameAfterDrain, TypingFinished;
    var c0 := c.(armed := false);
    StepKeepsValid(c.store, c.queue, DeleteOp(i));
    var c1 := StoreDelete(c0, i).0;
    SayLevels(c0, Idle, ErrorSlotEmpty, i, -1, FbSlotEmpty, gate);
    SayLevels(c1, Idle, ErrorDeleteQueueFull, i, -1, FbDeleteQfull, gate);
    SayLevels(c1, Idle, Deleted, i, -1, FbDeleted, gate);
    FinishLevels(EnterTyping(c1, Idle), gate, c.notes);
  }

  lemma MoveIntoLevels(c: Core, src: int, dst: int, gate: Gate)
    requires c.store.Valid()
    ensures SameAfterDrain(MoveInto(c, src, dst, gate), MoveInto(c, src, dst, {}), c.notes)
  {
    hide Total, Say, SameAfterDrain;
    StepKeepsValid(c.store, c.queue, MoveOp(src, dst));
    var c1 := StoreMove(c.(m := c.m.(moveSource := -1), armed := false), src, dst).0;
    SayLevels(c1, Idle, ErrorTooLarge, dst, -1, FbTooLarge, gate);
    SayLevels(c1, Idle, ErrorSaveQueueFull, dst, -1, FbSaveQfull, gate);
    SayLevels(c1, Idle, ErrorDeleteQueueFull, src, -1, FbDeleteQfull, gate);
    SayLevels(c1, Idle, Moved, dst, src, FbMoved, gate);
  }

  lemma MoveLevels(c: Core, i: int, gate: Gate)
    requires c.store.Valid()
    ensures SameAfterDrain(SlotMove(c, i, gate), SlotMove(c, i, {}), c.notes)
  {
    hide Total, Say, SameAfterDrain, MoveInto;
    var src := c.m.moveSource;
    StepKeepsValid(c.store, c.queue, DeleteOp(i));
    var c1 := StoreDelete(c, i).0;
    SayLevels(c, MovePending, ErrorSlotEmpty, i, -1, FbSlotEmpty, gate);
    SayLevels(c.(m := c.m.(moveSource := i)), MovePending, MoveSrcSelected, i, -1, FbMoveSrc, gate);
    SayLevels(c.(m := c.m.(moveSource := -1), armed := false), Idle, MoveCancelled, -1, -1, FbMoveCancel, gate);
    SayLevels(c, MovePending, ErrorSlotOccupied, i, -1, FbSlotFull, gate);
    SayLevels(c1, MovePending, ErrorDeleteQueueFull, i, -1, FbDeleteQfull, gate);
    MoveIntoLevels(c, src, i, gate);
    MoveIntoLevels(c1, src, i, gate);
  }

  lemma PlayLevels(c: Core, i: int, gate: Gate)
    requires c.store.Valid()
    ensures SameAfterDrain(SlotPlay(c, i, gate), SlotPlay(c, i, {}), c.notes)
  {
    hide Total, Say;
    SayLevels(c, Idle, ErrorSlotEmpty, i, -1, FbSlotEmpty, gate);
  }

  lemma SlotLevels(c: Core, i: int, gate: Gate)
    requires c.store.Valid() && Settled(c.m.state)
    ensures SameAfterDrain(DoSlot(c, i, gate), DoSlot(c, i, {}), c.notes)
  {
    hide Total, SameAfterDrain, TypingFinished, Say;
    match c.m.state {
      case Recording => RecordingLevels(c, i, gate);
      case PendingAssign => AssignLevels(c, i, gate);
      case DeletePending => DeleteLevels(c, i, gate);
      case MovePending => MoveLevels(c, i, gate);
      case PreviewPending =>
        FinishLevels(Notify(EnterTyping(c.(armed := false), Idle), PreviewReady, i, -1), gate, c.notes);
      case Idle => PlayLevels(c, i, gate);
    }
  }

  lemma OthersLevels(c: Core, gate: Gate, knobs: seq<Op>)
    requires c.store.Valid()
    ensures SameAfterDrain(DoRec(c, gate), DoRec(c, {}), c.notes)
    ensures SameAfterDrain(DoStop(c, gate), DoStop(c, {}), c.notes)
    ensures SameAfterDrain(DoOverflow(c, gate), DoOverflow(c, {}), c.notes)
    ensures SameAfterDrain(DoMoveMode(c, gate), DoMoveMode(c, {}), c.notes)
    ensures SameAfterDrain(DoStatus(c, gate), DoStatus(c, {}), c.notes)
    ensures SameAfterDrain(DoKnob(c, gate, knobs), DoKnob(c, {}, knobs), c.notes)
  {
    hide Total, Say, SameAfterDrain, TypingFinished;
    SayLevels(c.(armed := false, store := DraftReset(c.store)), Recording, RecordingStarted, -1, -1, FbRec, gate);
    SayLevels(c, Idle, ErrorNoRecording, -1, -1, FbNoRec, gate);
    SayLevels(c, PendingAssign, RecordingStopped, -1, -1, FbStop, gate);
    SayLevels(c, PendingAssign, ErrorOverflow, -1, -1, FbOverflow, gate);
    SayLevels(c.(m := c.m.(moveSource := -1)), MovePending, MovePrompt, -1, -1, FbMovePrompt, gate);
    FinishLevels(Voice(EnterTyping(c, Idle), FbStatusHeader, -1, -1), gate, c.notes);
    var c1 := Notify(EnterTyping(c, Idle), SettingsChanged, -1, -1);
    FinishLevels(Voice(c1.(queue := WithKnobs(c1.queue, knobs)), FbKnob, -1, -1), gate, c.notes);
  }

  lemma DispatchLevels(c: Core, cmd: Command, i: int, gate: Gate, knobs: seq<Op>)
    requires c.store.Valid() && c.m.state != TypingFeedback
    ensures SameAfterDrain(Dispatch(c, cmd, i, gate, knobs), Dispatch(c, cmd, i, {}, knobs), c.notes)
  {
    hide Total, DoSlot, DoRec, DoStop, DoOverflow, DoMoveMode, DoStatus, DoKnob;
    if Allowed(c.m.state, cmd) {
      OthersLevels(c, gate, knobs);
      if cmd == SlotKey {
        SlotLevels(c, i, gate);
      }
    }
  }

  lemma AsyncLevels(c: Core, rc: DmResult, i: int, gate: Gate)
    requires c.store.Valid() && c.m.state != TypingFeedback
    ensures SameAfterDrain(DeliverAsync(c, rc, i, gate), DeliverAsync(c, rc, i, {}), c.notes)
  {
    hide Total, Say;
    if c.m.state == Idle {
      SayLevels(c, Idle, Deleted, i, -1, FbDeleted, gate);
      SayLevels(c, Idle, ErrorSaveFailed, i, -1, FbSaveFailed, gate);
      SayLevels(c, Idle, ErrorDeleteFailed, i, -1, FbDeleteFailed, gate);
    }
  }

  lemma DeliverLevels(w: World, gate: Gate)
    requires w.core.store.Valid() && w.core.m.state != TypingFeedback && w.completions != []
    ensures SameAfterDrain(DeliverStep(w, gate).core, DeliverStep(w, {}).core, w.core.notes)
  {
    hide Total, DeliverAsync, SameAfterDrain;
    match w.completions[0] {
      case DeleteDone(i, gen, ok) =>
        StepKeepsValid(w.core.store, w.core.queue, CompleteOp(i, gen, ok));
        var (s, rc) := CompleteDelete(w.core.store, i, gen, ok);
        AsyncLevels(Healed(w.core.(store := s), rc, i), rc, i, gate);
      case SaveFailedOn(i) => AsyncLevels(w.core, SaveFailed, i, gate);
    }
  }

  /** One input at some level, drained, does what the same input does with every message silent. */
  lemma StepLevels(w: World, st: Step)
    requires Inv(w) && Enabled(w, st) && w.core.m.state != TypingFeedback && !st.EraseStart? && !st.EraseEnd?
    ensures SameAfterDrain(Next(w, st).core, Next(w, Quiet(st)).core, w.core.notes)
    ensures Next(w, st).(core := Next(w, Quiet(st)).core) == Next(w, Quiet(st))
  {
    hide Agrees, Recoverable, Stamped, Total, LeavingHolds, Dispatch;
    match st {
      case Press(cmd, i, gate, knobs) => DispatchLevels(w.core, cmd, i, gate, knobs);
      case Key(e, gate) => DispatchLevels(w.core, Overflow, 0, gate, []);
      case Deliver(gate) => DeliverLevels(w, gate);
      case _ =>
    }
  }

  /** One input of a run in which every cue drains before the next input. */
  datatype Input = Input(step: Step, g1: Gate, g2: Gate)

  ghost predicate Offered(w: World, st: Step) {
    && |w.core.store.slots| == MAX_SLOTS && Enabled(w, st)
    && !st.EraseStart? && !st.EraseEnd? && !st.TypingDone?
  }

  function Cooled(w: World, g1: Gate, g2: Gate): World
    requires |w.core.store.slots| == MAX_SLOTS
  {
    w.(core := Drain(w.core, g1, g2))
  }

  /** The pump's reports that take `w` to `Cooled(w, g1, g2)`. */
  function DrainSteps(w: World, g1: Gate, g2: Gate): seq<Step>
    requires |w.core.store.slots| == MAX_SLOTS
  {
    if w.core.m.state != TypingFeedback then []
    else if TypingFinished(w.core, g1).m.state != TypingFeedback then [TypingDone(g1)]
    else [TypingDone(g1), TypingDone(g2)]
  }

  lemma DrainIsSteps(w: World, g1: Gate, g2: Gate)
    requires |w.core.store.slots| == MAX_SLOTS
    ensures Legal(w, DrainSteps(w, g1, g2)) && RunTo(w, DrainSteps(w, g1, g2)) == Cooled(w, g1, g2)
  {
    hide TypingFinished;
    if w.core.m.state == TypingFeedback {
      var w1 := Next(w, TypingDone(g1));
      RunOne(w, TypingDone(g1), []);
      if w1.core.m.state == TypingFeedback {
        RunOne(w, TypingDone(g1), [TypingDone(g2)]);
        RunOne(w1, TypingDone(g2), []);
      }
    }
  }

  lemma RunOne(w: World, st: Step, rest: seq<Step>)
    requires |w.core.store.slots| == MAX_SLOTS && Enabled(w, st)
    ensures Legal(w, [st] + rest) <==> Legal(Next(w, st), rest)
    ensures Legal(Next(w, st), rest) ==> RunTo(w, [st] + rest) == RunTo(Next(w, st), rest)
  {
    hide Next;
    assert ([st] + rest)[1..] == rest;
  }

  /** `inputs` taken at any levels, each cue drained before the next input. */
  ghost predicate Drainable(w: World, inputs: seq<Input>)
    decreases |inputs|
  {
    inputs == [] ||
    (Offered(w, inputs[0].step)
      && |Next(w, inputs[0].step).core.store.slots| == MAX_SLOTS
      && Drainable(Cooled(Next(w, inputs[0].step), inputs[0].g1, inputs[0].g2), inputs[1..]))
  }

  /** The run itself: each input, then the pump's reports that let its cues type to the end. */
  ghost function LoudSteps(w: World, inputs: seq<Input>): seq<Step>
    requires Drainable(w, inputs)
    decreases |inputs|
  {
    if inputs == [] then []
    else
      var w1, g1, g2 := Next(w, inputs[0].step), inputs[0].g1, inputs[0].g2;
      [inputs[0].step] + (DrainSteps(w1, g1, g2) + LoudSteps(Cooled(w1, g1, g2), inputs[1..]))
  }

  function QuietSteps(inputs: seq<Input>): (steps: seq<Step>)
    ensures |steps| == |inputs|
  {
    if inputs == [] then [] else [Quiet(inputs[0].step)] + QuietSteps(inputs[1..])
  }

  lemma InputLevels(w: World, input: Input)
    requires Inv(w) && w.core.m.state != TypingFeedback && Offered(w, input.step)
    ensures |Next(w, input.step).core.store.slots| == MAX_SLOTS && Enabled(w, Quiet(input.step))
    ensures Cooled(Next(w, input.step), input.g1, input.g2) == Next(w, Quiet(input.step))
    ensures Inv(Next(w, Quiet(input.step))) && Next(w, Quiet(input.step)).core.m.state != TypingFeedback
  {
    hide Inv, Dispatch, TypingFinished, Drain;
    QuietEnabled(w, input.step);
    StepLevels(w, input.step);
    NextKeeps(w, Quiet(input.step));
    var loud := Next(w, input.step).core;
    assert Drain(loud, input.g1, input.g2) == Next(w, Quiet(input.step)).core;
  }

  lemma QuietEnabled(w: World, st: Step)
    requires Enabled(w, st)
    ensures Enabled(w, Quiet(st))
  {
  }

  lemma {:induction false} RunAppend(w: World, first: seq<Step>, more: seq<Step>)
    requires Legal(w, first) && Legal(RunTo(w, first), more)
    ensures Legal(w, first + more) && RunTo(w, first + more) == RunTo(RunTo(w, first), more)
    decreases |first|
  {
    hide Next;
    if first == [] {
      assert first + more == more;
    } else {
      assert (first + more)[1..] == first[1..] + more;
      RunAppend(Next(w, first[0]), first[1..], more);
    }
  }

  /**
   * The feedback level changes nothing but the typing: a run in which each cue drains before the
   * next input ends in the same machine, store, queue, flash, completions and notifications as the
   * run of the same inputs with every message silent.
   */
  lemma {:induction false} FeedbackLevelIsInvisible(w: World, inputs: seq<Input>)
    requires Inv(w) && w.core.m.state != TypingFeedback && Drainable(w, inputs)
    ensures Legal(w, LoudSteps(w, inputs)) && Legal(w, QuietSteps(inputs))
    ensures RunTo(w, LoudSteps(w, inputs)) == RunTo(w, QuietSteps(inputs))
    decreases |inputs|
  {
    hide Inv, Next, DrainSteps, Cooled;
    if inputs != [] {
      var st, g1, g2, quiet := inputs[0].step, inputs[0].g1, inputs[0].g2, Quiet(inputs[0].step);
      var w1 := Next(w, st);
      InputLevels(w, inputs[0]);
      FeedbackLevelIsInvisible(Next(w, quiet), inputs[1..]);
      var rest := LoudSteps(Next(w, quiet), inputs[1..]);
      DrainIsSteps(w1, g1, g2);
      RunAppend(w1, DrainSteps(w1, g1, g2), rest);
      RunOne(w, st, DrainSteps(w1, g1, g2) + rest);
      RunOne(w, quiet, QuietSteps(inputs[1..]));
    }
  }

  /** Every notification carries the mode the machine settles into once its cue has drained. */
  lemma NotificationsAnnounceTheirMode(w: World, input: Input)
    requires Inv(w) && w.core.m.state != TypingFeedback && Offered(w, input.step)
    ensures |Next(w, input.step).core.store.slots| == MAX_SLOTS
    ensures
      var settled := Cooled(Next(w, input.step), input.g1, input.g2).core;
      && w.core.notes <= settled.notes
      && forall k :: |w.core.notes| <= k < |settled.notes| ==> settled.notes[k].mode == settled.m.state
  {
    hide Inv, Dispatch, TypingFinished;
    InputLevels(w, input);
    StepLevels(w, input.step);
  }
}
