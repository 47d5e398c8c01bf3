/** What holds in every run of the composed firmware, whatever the order of its steps. */
module SystemTheorems {
  import opened Config
  import opened StoreSpec
  import opened StoreLaws
  import opened Storage
  import opened MachineSpec
  import opened System
  import opened SystemProofs

  /** After boot: the machine is idle, nothing is queued, and the store was loaded from flash. */
  ghost predicate Booted(w: World) {
    && w.core.m == INITIAL_MACHINE && w.core.queue == [] && w.completions == [] && w.core.lost == w.core.unsaved == {}
    && !w.core.armed
    && w.core.store.Valid() && w.core.store.playing == -1
    && (forall i :: IsSlot(i) ==> !w.core.store.slots[i].pending)
    && forall i :: IsNvs(i) ==> Lookup(w.flash, i) == Expect(w.core.store, i)
  }

  /** `steps` can be taken one after the other from `w`. */
  ghost predicate Legal(w: World, steps: seq<Step>)
    decreases |steps|
  {
    steps == [] ||
    (|w.core.store.slots| == MAX_SLOTS && Enabled(w, steps[0]) && Legal(Next(w, steps[0]), steps[1..]))
  }

  ghost function RunTo(w: World, steps: seq<Step>): World
    requires Legal(w, steps)
    decreases |steps|
  {
    if steps == [] then w else RunTo(Next(w, steps[0]), steps[1..])
  }

  lemma {:induction false} RunKeeps(w: World, steps: seq<Step>)
    requires Inv(w) && Legal(w, steps)
    ensures Inv(RunTo(w, steps))
    decreases |steps|
  {
    hide Inv;
    if steps != [] {
      NextKeeps(w, steps[0]);
      RunKeeps(Next(w, steps[0]), steps[1..]);
    }
  }

  lemma BootKeeps(w: World)
    requires Booted(w)
    ensures Inv(w)
  {
  }

  /** Reachable stores meet the premise under which every store operation refines the map of macros. */
  lemma ReachableStoresRefine(w0: World, steps: seq<Step>, op: StoreOp)
    requires Booted(w0) && Legal(w0, steps)
    ensures
      var c := RunTo(w0, steps).core;
      && c.store.Valid() && PlayingKept(c.store)
      && var o := StoreLaws.Step(c.store, c.queue, op);
         o.store.Valid() && RefStep(Abstract(c.store), op, o.result, Abstract(o.store))
  {
    hide Agrees, Recoverable, Stamped, Total, Booted, LeavingHolds;
    BootKeeps(w0);
    RunKeeps(w0, steps);
    var c := RunTo(w0, steps).core;
    StepRefinesMap(c.store, c.queue, op);
  }

  // ---- flash equals RAM at rest ------------------------------------------------------------

  /** Nothing is queued and no cue still owes its save; completions may be outstanding. */
  predicate AtRest(w: World) { w.core.queue == [] && w.core.m.postSave == -1 }

  /**
   * Over every interleaving, at rest each NVS slot's flash entry is exactly what the slot shows,
   * unless the slot is lost: its latest storage request was refused after RAM had changed, or ran and
   * failed and has not healed since.
   */
  lemma FlashEqualsRamAtRest(w0: World, steps: seq<Step>, i: int)
    requires Booted(w0) && Legal(w0, steps) && AtRest(RunTo(w0, steps))
    requires IsNvs(i) && i !in RunTo(w0, steps).core.lost
    ensures
      var w := RunTo(w0, steps);
      |w.core.store.slots| == MAX_SLOTS && Lookup(w.flash, i) == Expect(w.core.store, i)
  {
    BootKeeps(w0);
    RunKeeps(w0, steps);
  }

  // ---- notifications tell the truth ----------------------------------------------------------

  /** The mode a transition of `m` is in once its notification has been raised and its cue has drained. */
  predicate RightMode(m: Machine, n: Note) {
    match n.notice
    case RecordingStarted => n.mode == Recording
    case ChainInserted => n.mode == Recording
    case ErrorChainFull => n.mode == Recording
    case RecordingStopped => n.mode == PendingAssign
    case ErrorOverflow => n.mode == PendingAssign
    case MovePrompt => n.mode == MovePending
    case MoveSrcSelected => n.mode == MovePending
    case DeletePrompt => n.mode == DeletePending
    case PreviewPrompt => n.mode == PreviewPending
    case PlayStarted => n.mode == Playing
    case ErrorSlotOccupied => n.mode == m.state && (m.state == PendingAssign || m.state == MovePending)
    case ErrorTooLarge => n.mode == if m.state == PendingAssign then PendingAssign else Idle
    case ErrorSlotEmpty => n.mode == if m.state == Recording || m.state == MovePending then m.state else Idle
    case ErrorDeleteQueueFull =>
      n.mode == if m.state == PendingAssign || (m.state == MovePending && n.slot != m.moveSource) then m.state else Idle
    case _ => n.mode == Idle
  }

  /**
   * What a notification says about the store before and after its step. The others say nothing about
   * it: prompts, cancellations, settings, and refusals or failures of storage. And the mode it names.
   */
  ghost predicate Truth(c: Core, s': Store, n: Note)
    requires |c.store.slots| == |s'.slots| == MAX_SLOTS
  {
    var s := c.store;
    RightMode(c.m, n) &&
    match n.notice
    case Saved => s.draft != [] && s'.View(n.slot) == s.draft
    case Moved =>
      && n.slot2 == c.m.moveSource && s.View(n.slot2) != []
      && s'.View(n.slot) == s.View(n.slot2) && s'.IsEmpty(n.slot2)
    case Deleted => s'.IsEmpty(n.slot)
    case ChainInserted => s.View(n.slot) != [] && s'.draft == s.draft + s.View(n.slot)
    case PlayStarted => s'.playing == n.slot && s'.View(n.slot) == s.View(n.slot) != []
    case PlaybackFinished => s.playing == n.slot && s'.playing == -1 && s'.View(n.slot) == s.View(n.slot)
    case RecordingStarted => s'.draft == []
    case RecordingStopped => s'.draft == s.draft != []
    case MoveSrcSelected => s'.View(n.slot) == s.View(n.slot) != []
    case ErrorOverflow => |s.draft| >= MAX_EVENTS && s'.draft == s.draft
    case ErrorSlotOccupied => !s'.IsEmpty(n.slot) || |s'.draft| + Total(s'.slots) > ARENA_EVENTS
    case ErrorTooLarge =>
      IsNvs(n.slot) && |if n.mode == PendingAssign then s.draft else s.View(c.m.moveSource)| > MAX_EVENTS_NVS
    case ErrorNoRecording => s.draft == []
    case ErrorSlotEmpty => s.IsEmpty(n.slot)
    case ErrorChainFull => |s.draft| + |s.View(n.slot)| > MAX_EVENTS
    case _ => true
  }

  /** The queue refused to record something about slot `i`. */
  predicate Refusal(n: Note, i: int) {
    (n.notice == ErrorSaveQueueFull || n.notice == ErrorDeleteQueueFull) && n.slot == i
  }

  ghost predicate Told(before: seq<Note>, after: seq<Note>, i: int) {
    exists k :: |before| <= k < |after| && Refusal(after[k], i)
  }

  /** Every new notification is true of the store, and no slot starts to diverge from flash without one. */
  ghost predicate Tells(c: Core, c': Core) {
    && |c.store.slots| == |c'.store.slots| == MAX_SLOTS
    && c.notes <= c'.notes
    && (forall k :: |c.notes| <= k < |c'.notes| ==> Truth(c, c'.store, c'.notes[k]))
    && (forall i :: i in c'.lost && i !in c.lost ==> Told(c.notes, c'.notes, i))
  }

  /** The cue that announces one more note `n`, on top of the cores `c0` (before) and `c` (prepared). */
  ghost predicate Prepared(c0: Core, c: Core, n: Note) {
    && c.store.Valid() && |c0.store.slots| == MAX_SLOTS
    && c.notes == c0.notes + [n] && Truth(c0, c.store, n)
    && (forall i :: i in c.lost && i !in c0.lost ==> Refusal(n, i))
  }

  lemma PreparedTells(c0: Core, c: Core, n: Note)
    requires Prepared(c0, c, n)
    ensures Tells(c0, c)
  {
    forall i | i in c.lost && i !in c0.lost
      ensures Told(c0.notes, c.notes, i)
    {
      assert Refusal(c.notes[|c0.notes|], i);
    }
  }

  lemma FinishTells(c0: Core, c: Core, gate: Gate)
    requires c.store.Valid() && Tells(c0, c) && (c.m.postSave >= 0 ==> c.m.returnState == Idle)
    ensures Tells(c0, TypingFinished(c, gate))
  {
    hide Truth;
    var owed, c' := c.m.postSave, TypingFinished(c, gate);
    forall i | i in c'.lost && i !in c0.lost
      ensures Told(c0.notes, c'.notes, i)
    {
      if i in c.lost {
        var k :| |c0.notes| <= k < |c.notes| && Refusal(c.notes[k], i);
        assert Refusal(c'.notes[k], i);
      } else {
        assert Refusal(c'.notes[|c.notes|], i);
      }
    }
    assert c'.store == c.store;
    assert |c'.notes| > |c.notes| ==> QueueFullNote(c'.notes[|c.notes|]);
    LastTrue(c0, c.store, c.notes, c'.notes, |c0.notes|);
  }

  /** The refusal of an owed save, spoken from IDLE. */
  predicate QueueFullNote(n: Note) { n.notice == ErrorSaveQueueFull && n.mode == Idle }

  lemma LastTrue(c: Core, s': Store, notes: seq<Note>, notes': seq<Note>, from: nat)
    requires |c.store.slots| == |s'.slots| == MAX_SLOTS
    requires notes <= notes' && |notes'| <= |notes| + 1 && from <= |notes|
    requires |notes'| > |notes| ==> QueueFullNote(notes'[|notes|])
    requires forall k :: from <= k < |notes| ==> Truth(c, s', notes[k])
    ensures forall k :: from <= k < |notes'| ==> Truth(c, s', notes'[k])
  {
    forall k | from <= k < |notes'|
      ensures Truth(c, s', notes'[k])
    {
      if k < |notes| {
        assert Truth(c, s', notes[k]);
      }
    }
  }

  lemma SayTells(c0: Core, c: Core, returnTo: State, notice: Notice, slot: int, slot2: int, kind: FbKind, gate: Gate)
    requires c.store.Valid() && |c0.store.slots| == MAX_SLOTS && c.notes == c0.notes
    requires c.m.postSave >= 0 ==> returnTo == Idle
    requires
      var n := Note(notice, slot, slot2, returnTo);
      && Truth(c0, c.store, n)
      && (forall i :: i in c.lost && i !in c0.lost ==> Refusal(n, i))
    ensures Tells(c0, Say(c, returnTo, notice, slot, slot2, kind, gate))
  {
    hide Truth, Refusal, Total;
    var c1 := Announced(c, returnTo, notice, slot, slot2, kind);
    assert Prepared(c0, c1, Note(notice, slot, slot2, returnTo));
    PreparedTells(c0, c1, Note(notice, slot, slot2, returnTo));
    FinishTells(c0, c1, gate);
  }

  lemma PlainTells(c0: Core, c: Core, returnTo: State, notice: Notice, slot: int, slot2: int, kind: FbKind, gate: Gate)
    requires c.store.Valid() && |c0.store.slots| == MAX_SLOTS && c.notes == c0.notes && c.lost <= c0.lost
    requires c.m.postSave >= 0 ==> returnTo == Idle
    requires Truth(c0, c.store, Note(notice, slot, slot2, returnTo))
    ensures Tells(c0, Say(c, returnTo, notice, slot, slot2, kind, gate))
  {
    SayTells(c0, c, returnTo, notice, slot, slot2, kind, gate);
  }

  lemma AssignEmptyTells(c0: Core, c: Core, i: int, gate: Gate)
    requires c.store.Valid() && |c0.store.slots| == MAX_SLOTS
    requires IsSlot(i) && c.store.IsEmpty(i) && c.store.playing == -1
    requires c0.m.state == PendingAssign && c.m.postSave == -1
    requires c.notes == c0.notes && c.lost <= c0.lost && c.store.draft == c0.store.draft != []
    ensures Tells(c0, AssignEmpty(c, i, gate))
  {
    hide Total, Say, Tells;
    StepKeepsValid(c.store, c.queue, CommitOp(i));
    var (c1, rc) := StoreCommit(c, i);
    if rc == RejectedTooLarge {
      PlainTells(c0, c1, PendingAssign, ErrorTooLarge, i, -1, FbTooLarge, gate);
    } else if rc != Ok {
      PlainTells(c0, c1, PendingAssign, ErrorSlotOccupied, i, -1, FbSlotFull, gate);
    } else {
      SayTells(c0, c1.(m := c1.m.(postSave := i)), Idle, Saved, i, -1, FbSaved, gate);
    }
  }

  lemma SlotAssignTells(c: Core, i: int, gate: Gate)
    requires c.store.Valid() && c.store.draft != [] && IsSlot(i) && c.store.playing == -1
    requires c.m.state == PendingAssign && c.m.postSave == -1
    ensures Tells(c, SlotAssign(c, i, gate))
  {
    hide Total, Told, Tells, AssignEmpty, Say, Persist;
    var c0 := c.(armed := false);
    StepKeepsValid(c.store, c.queue, DeleteOp(i));
    if c0.store.IsEmpty(i) {
      AssignEmptyTells(c, c0, i, gate);
    } else if !AutoOverwrite(i) {
      PlainTells(c, c0, PendingAssign, ErrorSlotOccupied, i, -1, FbSlotFull, gate);
    } else {
      var (c1, rc) := StoreDelete(c0, i);
      if rc != Ok && rc != DeleteDeferred {
        PlainTells(c, c1, PendingAssign, ErrorDeleteQueueFull, i, -1, FbDeleteQfull, gate);
      } else {
        AssignEmptyTells(c, c1, i, gate);
      }
    }
  }

  lemma SlotDeleteTells(c: Core, i: int, gate: Gate)
    requires c.store.Valid() && c.m.state == DeletePending && c.m.postSave == -1
    ensures Tells(c, SlotDelete(c, i, gate))
  {
    hide Total, Say;
    var c0 := c.(armed := false);
    StepKeepsValid(c.store, c.queue, DeleteOp(i));
    if c0.store.IsEmpty(i) {
      PlainTells(c, c0, Idle, ErrorSlotEmpty, i, -1, FbSlotEmpty, gate);
    } else {
      var (c1, rc) := StoreDelete(c0, i);
      if rc == DeleteQueueFull {
        PlainTells(c, c1, Idle, ErrorDeleteQueueFull, i, -1, FbDeleteQfull, gate);
      } else if rc == DeleteDeferred {
        FinishTells(c, EnterTyping(c1, Idle), gate);
      } else {
        SayTells(c, c1, Idle, Deleted, i, -1, FbDeleted, gate);
      }
    }
  }

  /** MOVED is raised for every store outcome the transition does not list; only Ok is left over. */
  lemma MoveIntoTells(c0: Core, c: Core, src: int, dst: int, gate: Gate)
    requires c.store.Valid() && |c0.store.slots| == MAX_SLOTS && c.notes == c0.notes && c.lost <= c0.lost
    requires src == c0.m.moveSource && c0.m.state == MovePending && c.m.postSave == -1
    requires !c.store.IsEmpty(src) && c.store.View(src) == c0.store.View(src) && IsSlot(dst) && c.store.IsEmpty(dst)
    ensures Tells(c0, MoveInto(c, src, dst, gate))
  {
    hide Total, Say, Tells;
    var c' := c.(m := c.m.(moveSource := -1), armed := false);
    StepKeepsValid(c.store, c.queue, MoveOp(src, dst));
    var (c1, rc) := StoreMove(c', src, dst);
    if rc == RejectedTooLarge {
      PlainTells(c0, c1, Idle, ErrorTooLarge, dst, -1, FbTooLarge, gate);
    } else if rc == SaveQueueFull {
      PlainTells(c0, c1, Idle, ErrorSaveQueueFull, dst, -1, FbSaveQfull, gate);
    } else if rc == DeleteQueueFull {
      SayTells(c0, c1, Idle, ErrorDeleteQueueFull, src, -1, FbDeleteQfull, gate);
    } else {
      assert rc == Ok;
      SayTells(c0, c1, Idle, Moved, dst, src, FbMoved, gate);
    }
  }

  lemma SlotMoveTells(c: Core, i: int, gate: Gate)
    requires c.store.Valid() && IsSlot(i) && (c.m.moveSource >= 0 ==> !c.store.IsEmpty(c.m.moveSource))
    requires c.m.state == MovePending && c.m.postSave == -1
    ensures Tells(c, SlotMove(c, i, gate))
  {
    hide Total, Told, Tells, MoveInto, Say;
    var src := c.m.moveSource;
    StepKeepsValid(c.store, c.queue, DeleteOp(i));
    if src < 0 {
      if c.store.IsEmpty(i) {
        PlainTells(c, c, MovePending, ErrorSlotEmpty, i, -1, FbSlotEmpty, gate);
      } else {
        PlainTells(c, c.(m := c.m.(moveSource := i)), MovePending, MoveSrcSelected, i, -1, FbMoveSrc, gate);
      }
    } else if src == i {
      PlainTells(c, c.(m := c.m.(moveSource := -1), armed := false), Idle, MoveCancelled, -1, -1, FbMoveCancel, gate);
    } else if c.store.IsEmpty(i) {
      MoveIntoTells(c, c, src, i, gate);
    } else if !AutoOverwrite(i) {
      PlainTells(c, c, MovePending, ErrorSlotOccupied, i, -1, FbSlotFull, gate);
    } else {
      var (c1, rc) := StoreDelete(c, i);
      if rc != Ok && rc != DeleteDeferred {
        PlainTells(c, c1, MovePending, ErrorDeleteQueueFull, i, -1, FbDeleteQfull, gate);
      } else {
        MoveIntoTells(c, c1, src, i, gate);
      }
    }
  }

  lemma SlotRecordingTells(c: Core, i: int, gate: Gate)
    requires c.store.Valid() && c.m.state == Recording && c.m.postSave == -1
    ensures Tells(c, SlotRecording(c, i, gate))
  {
    hide Total, Tells, Say;
    StepKeepsValid(c.store, c.queue, ChainOp(i));
    if c.store.IsEmpty(i) {
      PlainTells(c, c, Recording, ErrorSlotEmpty, i, -1, FbChainEmpty, gate);
    } else {
      var (s, rc) := DraftChain(c.store, i);
      if rc == RejectedFull {
        PlainTells(c, c, Recording, ErrorChainFull, i, -1, FbChainNoRoom, gate);
      } else {
        PlainTells(c, c.(store := s), Recording, ChainInserted, i, -1, FbChainInsert, gate);
      }
    }
  }

  lemma SlotOthersTell(c: Core, i: int, gate: Gate)
    requires c.store.Valid() && c.m.postSave == -1
    ensures Tells(c, SlotPreview(c, i, gate)) && (c.m.state == Idle ==> Tells(c, SlotPlay(c, i, gate)))
  {
    hide Total, Say;
    if c.m.state == Idle && c.store.IsEmpty(i) {
      PlainTells(c, c, Idle, ErrorSlotEmpty, i, -1, FbSlotEmpty, gate);
    }
    FinishTells(c, Notify(EnterTyping(c.(armed := false), Idle), PreviewReady, i, -1), gate);
  }

  lemma TakesTell(c: Core, gate: Gate)
    requires c.store.Valid() && c.m.postSave == -1
    ensures Tells(c, DoRec(c, gate)) && Tells(c, DoStop(c, gate))
    ensures |c.store.draft| >= MAX_EVENTS ==> Tells(c, DoOverflow(c, gate))
  {
    hide Total, Tells, Say;
    PlainTells(c, c.(armed := false, store := DraftReset(c.store)), Recording, RecordingStarted, -1, -1, FbRec, gate);
    if c.store.draft == [] {
      PlainTells(c, c, Idle, ErrorNoRecording, -1, -1, FbNoRec, gate);
    } else {
      PlainTells(c, c, PendingAssign, RecordingStopped, -1, -1, FbStop, gate);
    }
    if |c.store.draft| >= MAX_EVENTS {
      PlainTells(c, c, PendingAssign, ErrorOverflow, -1, -1, FbOverflow, gate);
    }
  }

  lemma OthersTell(c: Core, gate: Gate, knobs: seq<Op>)
    requires c.store.Valid() && c.m.postSave == -1
    ensures Tells(c, DoMoveMode(c, gate)) && Tells(c, DoStatus(c, gate)) && Tells(c, DoKnob(c, gate, knobs))
  {
    hide Total, Say, TypingFinished;
    PlainTells(c, c.(m := c.m.(moveSource := -1)), MovePending, MovePrompt, -1, -1, FbMovePrompt, gate);
    FinishTells(c, Voice(EnterTyping(c, Idle), FbStatusHeader, -1, -1), gate);
    var c1 := Notify(EnterTyping(c, Idle), SettingsChanged, -1, -1);
    FinishTells(c, Voice(c1.(queue := WithKnobs(c1.queue, knobs)), FbKnob, -1, -1), gate);
  }

  lemma DispatchTells(c: Core, cmd: Command, i: int, gate: Gate, knobs: seq<Op>, f: Flash, cs: seq<Completion>)
    requires Inv(World(c, f, cs)) && (cmd == SlotKey ==> IsSlot(i))
    requires cmd == Overflow ==> |c.store.draft| >= MAX_EVENTS
    ensures Tells(c, Dispatch(c, cmd, i, gate, knobs))
  {
    hide Total, Agrees, Recoverable, Stamped, DoRec, DoStop, DoOverflow, DoMoveMode, DoStatus, DoKnob;
    if Allowed(c.m.state, cmd) {
      TakesTell(c, gate);
      OthersTell(c, gate, knobs);
      if cmd == SlotKey {
        SlotOthersTell(c, i, gate);
        match c.m.state {
          case Recording => SlotRecordingTells(c, i, gate);
          case PendingAssign => SlotAssignTells(c, i, gate);
          case DeletePending => SlotDeleteTells(c, i, gate);
          case MovePending => SlotMoveTells(c, i, gate);
          case _ =>
        }
      }
    }
  }

  lemma AsyncTells(c0: Core, c: Core, rc: DmResult, i: int, gate: Gate)
    requires c.store.Valid() && |c0.store.slots| == MAX_SLOTS && c.notes == c0.notes && c.lost <= c0.lost
    requires (rc == Ok ==> c.store.IsEmpty(i)) && (c.m.state == Idle ==> c.m.postSave == -1)
    ensures Tells(c0, DeliverAsync(c, rc, i, gate))
  {
    hide Total, Say;
    if c.m.state == Idle {
      match rc {
        case Ok => SayTells(c0, c, Idle, Deleted, i, -1, FbDeleted, gate);
        case SaveFailed => PlainTells(c0, c, Idle, ErrorSaveFailed, i, -1, FbSaveFailed, gate);
        case DeleteFailed => PlainTells(c0, c, Idle, ErrorDeleteFailed, i, -1, FbDeleteFailed, gate);
        case _ =>
      }
    }
  }

  lemma DeliverTells(w: World, gate: Gate)
    requires Inv(w) && w.completions != []
    ensures Tells(w.core, DeliverStep(w, gate).core)
  {
    hide Total, Agrees, Recoverable, Stamped;
    match w.completions[0] {
      case DeleteDone(i, gen, ok) =>
        StepKeepsValid(w.core.store, w.core.queue, CompleteOp(i, gen, ok));
        var (s, rc) := CompleteDelete(w.core.store, i, gen, ok);
        AsyncTells(w.core, Healed(w.core.(store := s), rc, i), rc, i, gate);
      case SaveFailedOn(i) => AsyncTells(w.core, w.core, SaveFailed, i, gate);
    }
  }

  /**
   * In every reachable state and for every step: SAVED means the slot holds exactly the draft,
   * MOVED means the destination holds what the source held and the source is empty, DELETED means
   * the slot reads empty, and so on for chaining, playing, recording and their refusals; and unless
   * a flash operation failed, no slot comes to differ from its future flash entry without a
   * queue-full notification naming it.
   */
  lemma NotificationsTellTheTruth(w0: World, steps: seq<Step>, st: Step)
    requires Booted(w0) && Legal(w0, steps)
    requires |RunTo(w0, steps).core.store.slots| == MAX_SLOTS && Enabled(RunTo(w0, steps), st) && st != Work(false)
    ensures var w := RunTo(w0, steps); Tells(w.core, Next(w, st).core)
  {
    hide Total, Agrees, Recoverable, Stamped;
    BootKeeps(w0);
    RunKeeps(w0, steps);
    NextTells(RunTo(w0, steps), st);
  }

  // ---- no silent divergence ---------------------------------------------------------------

  lemma NextTells(w: World, st: Step)
    requires Inv(w) && Enabled(w, st) && st != Work(false)
    ensures Tells(w.core, Next(w, st).core)
  {
    hide Total, Agrees, Recoverable, Stamped;
    match st {
      case Press(cmd, i, gate, knobs) => DispatchTells(w.core, cmd, i, gate, knobs, w.flash, w.completions);
      case Key(e, gate) =>
        if |w.core.store.draft| >= MAX_EVENTS {
          DispatchTells(w.core, Overflow, 0, gate, [], w.flash, w.completions);
        }
      case TypingDone(gate) => FinishTells(w.core, w.core, gate);
      case Deliver(gate) => DeliverTells(w, gate);
      case _ =>
    }
  }

  lemma {:induction false} RunTellsLosses(w: World, steps: seq<Step>)
    requires Inv(w) && Legal(w, steps) && Work(false) !in steps
    ensures var w' := RunTo(w, steps);
      && w.core.notes <= w'.core.notes
      && forall i :: i in w'.core.lost && i !in w.core.lost ==> Told(w.core.notes, w'.core.notes, i)
    decreases |steps|
  {
    hide Inv, Truth;
    if steps != [] {
      var mid := Next(w, steps[0]);
      NextKeeps(w, steps[0]);
      NextTells(w, steps[0]);
      RunTellsLosses(mid, steps[1..]);
      var w' := RunTo(w, steps);
      forall i | i in w'.core.lost && i !in w.core.lost
        ensures Told(w.core.notes, w'.core.notes, i)
      {
        if i in mid.core.lost {
          var k :| |w.core.notes| <= k < |mid.core.notes| && Refusal(mid.core.notes[k], i);
          assert Refusal(w'.core.notes[k], i);
        } else {
          var k :| |mid.core.notes| <= k < |w'.core.notes| && Refusal(w'.core.notes[k], i);
        }
      }
    }
  }

  /**
   * If no flash operation failed and no queue-full notification was ever raised about a slot,
   * then at rest that slot's flash entry is exactly what it shows.
   */
  lemma UnrefusedSlotsAgree(w0: World, steps: seq<Step>, i: int)
    requires Booted(w0) && Legal(w0, steps) && AtRest(RunTo(w0, steps)) && Work(false) !in steps
    requires IsNvs(i) && !Told(w0.core.notes, RunTo(w0, steps).core.notes, i)
    ensures
      var w := RunTo(w0, steps);
      |w.core.store.slots| == MAX_SLOTS && Lookup(w.flash, i) == Expect(w.core.store, i)
  {
    BootKeeps(w0);
    RunTellsLosses(w0, steps);
    FlashEqualsRamAtRest(w0, steps, i);
  }

  // ---- a playing slot is left alone ------------------------------------------------------

  /**
   * Until the emitter is done, no step touches the playing slot: the machine stays in PLAYING,
   * the slot keeps showing the same macro, and any delete completion naming it is stale.
   */
  lemma PlayingSlotIsStable(w: World, st: Step)
    requires Inv(w) && Enabled(w, st) && w.core.m.state == Playing && st != PlayEnd
    ensures var w' := Next(w, st);
      && |w'.core.store.slots| == MAX_SLOTS
      && w'.core.m.state == Playing && w'.core.store.playing == w.core.store.playing
      && w'.core.store.View(w.core.store.playing) == w.core.store.View(w.core.store.playing) != []
    ensures forall gen: nat, ok :: CompleteDelete(w.core.store, w.core.store.playing, gen, ok).1 == DeleteStale
  {
    hide Total, Agrees, Recoverable, Stamped;
  }

  lemma {:induction false} PlaybackSeesOneMacro(w: World, steps: seq<Step>)
    requires Inv(w) && Legal(w, steps) && w.core.m.state == Playing && PlayEnd !in steps
    ensures var w' := RunTo(w, steps);
      && |w.core.store.slots| == |w'.core.store.slots| == MAX_SLOTS
      && w'.core.m.state == Playing && w'.core.store.playing == w.core.store.playing
      && w'.core.store.View(w.core.store.playing) == w.core.store.View(w.core.store.playing)
    decreases |steps|
  {
    hide Agrees, Recoverable, Stamped, Total, LeavingHolds;
    if steps != [] {
      NextKeeps(w, steps[0]);
      PlayingSlotIsStable(w, steps[0]);
      PlaybackSeesOneMacro(Next(w, steps[0]), steps[1..]);
    }
  }

  // ---- moves survive a power cut -----------------------------------------------------------

  /** Flash after some operations ran; saves succeed, each delete may or may not. */
  function Applied(f: Flash, ops: seq<Op>, deletes: seq<bool>): Flash
    requires |deletes| == |ops|
  {
    if ops == [] then f
    else
      var n := |ops| - 1;
      var before := Applied(f, ops[..n], deletes[..n]);
      Storage.Work(Backend([ops[n]], before, []), ops[n].Save? || deletes[n]).flash
  }

  /** Whatever the deletes do, an entry that is due to be present is present. */
  lemma {:induction false} AppliedFinal(f: Flash, ops: seq<Op>, deletes: seq<bool>, i: int)
    requires |deletes| == |ops| && Final(f, ops, i).Present?
    ensures Lookup(Applied(f, ops, deletes), i) == Final(f, ops, i)
  {
    if ops != [] {
      var n := |ops| - 1;
      if !(ops[n].Save? && ops[n].slot == i) {
        AppliedFinal(f, ops[..n], deletes[..n], i);
      }
    }
  }

  /**
   * Move between two NVS slots when flash is to hold the macro under `src`: cut the power after
   * any part of the queue that covers what was queued before the move, and flash still holds the
   * macro under one of the two slots, whether or not either of the move's operations was accepted.
   */
  lemma CrashSafeMove(s: Store, q: seq<Op>, lost: set<int>, f: Flash, src: int, dst: int, k: nat, deletes: seq<bool>)
    requires |s.slots| == MAX_SLOTS && Agrees(s, q, lost, -1, f)
    requires IsNvs(src) && IsNvs(dst) && src !in lost && !s.IsEmpty(src)
    requires |q| <= k <= |Move(s, q, src, dst).queue| && |deletes| == k
    ensures
      var after := Applied(f, Move(s, q, src, dst).queue[..k], deletes);
      Lookup(after, src) == Present(s.View(src)) || Lookup(after, dst) == Present(s.View(src))
  {
    var o := Move(s, q, src, dst);
    var save := Save(dst, s.slots[src].events, s.slots[dst].gen + 1);
    assert Final(f, q, src) == Present(s.View(src));
    assert o.queue[..|q|] == q;
    if k == |q| {
      AppliedFinal(f, q, deletes, src);
    } else {
      FinalAppend(f, q, save, dst);
      assert o.queue[..|q| + 1] == q + [save];
      if k > |q| + 1 {
        assert o.queue[..k] == q + [save] + [Delete(src, s.slots[src].gen + 1)];
        FinalAppend(f, q + [save], Delete(src, s.slots[src].gen + 1), dst);
      }
      AppliedFinal(f, o.queue[..k], deletes, dst);
    }
  }

  /** In particular after any run from boot, for a source whose storage was not last refused or failed. */
  lemma MovesAreCrashSafe(w0: World, steps: seq<Step>, src: int, dst: int, k: nat, deletes: seq<bool>)
    requires Booted(w0) && Legal(w0, steps) && RunTo(w0, steps).core.m.postSave == -1
    requires |RunTo(w0, steps).core.store.slots| == MAX_SLOTS
    requires IsNvs(src) && IsNvs(dst) && src !in RunTo(w0, steps).core.lost && !RunTo(w0, steps).core.store.IsEmpty(src)
    requires
      var c := RunTo(w0, steps).core;
      |c.queue| <= k <= |Move(c.store, c.queue, src, dst).queue| && |deletes| == k
    ensures
      var w := RunTo(w0, steps);
      var after := Applied(w.flash, Move(w.core.store, w.core.queue, src, dst).queue[..k], deletes);
      Lookup(after, src) == Present(w.core.store.View(src)) || Lookup(after, dst) == Present(w.core.store.View(src))
  {
    hide Agrees, Recoverable, Stamped, Total, LeavingHolds, Move, Applied, Booted;
    BootKeeps(w0);
    RunKeeps(w0, steps);
    var w := RunTo(w0, steps);
    CrashSafeMove(w.core.store, w.core.queue, w.core.lost, w.flash, src, dst, k, deletes);
  }
}
