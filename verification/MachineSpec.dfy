/**
 * What dm_machine.c means: each command, up-call and timeout as a function on the machine, the
 * store and the storage queue together. MacroMachine.dfy proves that the imperative machine
 * computes these functions; SystemProofs.dfy proves what their runs keep.
 */
module MachineSpec {
  import opened Config
  import opened StoreSpec

  datatype State =
    | Idle | Recording | PendingAssign | DeletePending | MovePending | PreviewPending
    | Playing | TypingFeedback | TypingErase

  datatype Command =
    | Rec | Stp | Del | Mov | SlotKey | Status | Preview
    | FeedbackInc | FeedbackDec | StyleToggle | EraseToggle | TestReload | Overflow

  /** Which message a transition speaks (dm_spec.h). */
  datatype FbKind =
    | FbRec | FbStop | FbNoRec | FbSaved | FbSlotFull | FbSlotEmpty | FbOverflow | FbMovePrompt
    | FbMoveSrc | FbMoved | FbMoveCancel | FbChainInsert | FbChainEmpty | FbChainNoRoom | FbDeleted
    | FbDeleteFailed | FbSaveFailed | FbSaveQfull | FbDeleteQfull | FbKnob | FbStatusHeader | FbStatusSlot | FbTooLarge

  /** Widget notifications (dm_notify.h). */
  datatype Notice =
    | RecordingStarted | RecordingStopped | Saved | Deleted | Moved | PlayStarted | PlaybackFinished
    | PreviewReady
    | MovePrompt | MoveSrcSelected | MoveCancelled | DeletePrompt | PreviewPrompt | ChainInserted
    | PendingCancelled | SettingsChanged
    | ErrorNoRecording | ErrorSlotEmpty | ErrorSlotOccupied | ErrorOverflow | ErrorChainFull
    | ErrorSaveFailed | ErrorDeleteFailed | ErrorSaveQueueFull | ErrorDeleteQueueFull | ErrorTooLarge

  /** A message handed to the pump, whether or not its level lets it type. */
  datatype Speech = Speech(kind: FbKind, slot: int, slot2: int)

  /** A raised notification; `mode` is the effective state a widget reads with it. */
  datatype Note = Note(notice: Notice, slot: int, slot2: int, mode: State)

  datatype Machine = Machine(
    state: State, returnState: State, eraseReturn: State,
    moveSource: int, postSave: int, eraseActive: bool)
  {
    /** The state behind a typing state. */
    function Effective(): State {
      if state == TypingFeedback then returnState else if state == TypingErase then eraseReturn else state
    }
  }

  const INITIAL_MACHINE: Machine := Machine(Idle, Idle, Idle, -1, -1, false)

  /**
   * Everything a transition can touch. `lost` is a history variable: the NVS slots whose latest
   * storage request, a save or the delete behind a move or a delete command, was refused after RAM
   * had changed, or ran and failed. A later accepted request takes the slot out again, and so does
   * the completion of a failed delete that brings back a macro flash still holds. It does unless the
   * slot is in `unsaved`: slots that were lost when their delete was requested, or whose save failed
   * or whose entry was erased since.
   */
  datatype Core = Core(
    m: Machine, store: Store, queue: seq<Op>, armed: bool, notes: seq<Note>, cues: seq<Speech>,
    lost: set<int>, unsaved: set<int>)

  /**
   * Which message kinds type anything: the level gate of dm_feedback_speak, left arbitrary.
   * A kind outside the set finishes synchronously, inside the transition.
   */
  type Gate = set<FbKind>

  predicate IsPending(s: State) {
    s == PendingAssign || s == DeletePending || s == MovePending || s == PreviewPending
  }

  predicate AutoOverwrite(i: int) {
    IsSlot(i) && if IsNvs(i) then AUTO_OVERWRITE_NVS else AUTO_OVERWRITE_RAM
  }

  /** The legality matrix, row by row. */
  predicate Allowed(s: State, cmd: Command) {
    match s
    case Idle => cmd != Stp && cmd != Overflow
    case Recording => cmd == Rec || cmd == Stp || cmd == SlotKey || cmd == Overflow
    case PendingAssign => cmd == Rec || cmd == SlotKey
    case DeletePending => cmd == SlotKey
    case MovePending => cmd == SlotKey
    case PreviewPending => cmd == Rec || cmd == SlotKey
    case _ => false
  }

  // ---- small helpers ------------------------------------------------------------

  function EnterTyping(c: Core, returnTo: State): Core {
    c.(m := c.m.(returnState := returnTo, state := TypingFeedback))
  }

  function Notify(c: Core, notice: Notice, slot: int, slot2: int): Core {
    c.(notes := c.notes + [Note(notice, slot, slot2, c.m.Effective())])
  }

  function Voice(c: Core, kind: FbKind, slot: int, slot2: int): Core {
    c.(cues := c.cues + [Speech(kind, slot, slot2)])
  }

  /** typing_finished with no persist owed: restore the parked state, re-arm a pending one. */
  function Settle(c: Core): Core {
    c.(m := c.m.(state := c.m.returnState, postSave := -1), armed := c.armed || IsPending(c.m.returnState))
  }

  function StorePersist(c: Core, i: int): (Core, DmResult)
    requires |c.store.slots| == MAX_SLOTS
  {
    var o := Persist(c.store, c.queue, i);
    var lost := if !IsNvs(i) then c.lost else if o.result == Ok then c.lost - {i} else c.lost + {i};
    (c.(queue := o.queue, lost := lost), o.result)
  }

  function TypingFinished(c: Core, gate: Gate): (r: Core)
    requires |c.store.slots| == MAX_SLOTS
    ensures r.store == c.store && r.m.eraseActive == c.m.eraseActive && r.m.eraseReturn == c.m.eraseReturn
  {
    var owed := c.m.postSave;
    if owed < 0 then Settle(c)
    else
      var (saved, rc) := StorePersist(Settle(c), owed);
      if rc != SaveQueueFull then saved
      else
        var noted := Notify(EnterTyping(saved, saved.m.state), ErrorSaveQueueFull, owed, -1);
        var told := Voice(noted, FbSaveQfull, owed, -1);
        if FbSaveQfull in gate then told else Settle(told)
  }

  function Speak(c: Core, kind: FbKind, slot: int, slot2: int, gate: Gate): Core
    requires |c.store.slots| == MAX_SLOTS
  {
    var voiced := Voice(c, kind, slot, slot2);
    if kind in gate then voiced else TypingFinished(voiced, gate)
  }

  /** The core a transition leaves to its cue; MOVED names the source first when it is typed. */
  function Announced(c: Core, returnTo: State, notice: Notice, slot: int, slot2: int, kind: FbKind): Core {
    var speech := if kind == FbMoved then Speech(kind, slot2, slot) else Speech(kind, slot, slot2);
    c.(m := c.m.(returnState := returnTo, state := TypingFeedback),
       notes := c.notes + [Note(notice, slot, slot2, returnTo)], cues := c.cues + [speech])
  }

  lemma SayIsSpeak(c: Core, returnTo: State, notice: Notice, slot: int, slot2: int, kind: FbKind, gate: Gate)
    requires |c.store.slots| == MAX_SLOTS
    ensures
      Say(c, returnTo, notice, slot, slot2, kind, gate)
      == Speak(Notify(EnterTyping(c, returnTo), notice, slot, slot2), kind,
               if kind == FbMoved then slot2 else slot, if kind == FbMoved then slot else slot2, gate)
  {
    hide TypingFinished;
  }

  /** Park the state to settle into, raise the notification, type the cue. */
  function Say(
      c: Core, returnTo: State, notice: Notice, slot: int, slot2: int, kind: FbKind, gate: Gate): (r: Core)
    requires |c.store.slots| == MAX_SLOTS
    ensures r.store == c.store && r.m.eraseActive == c.m.eraseActive && r.m.eraseReturn == c.m.eraseReturn
  {
    var announced := Announced(c, returnTo, notice, slot, slot2, kind);
    if kind in gate then announced else TypingFinished(announced, gate)
  }

  function StoreDelete(c: Core, i: int): (Core, DmResult)
    requires |c.store.slots| == MAX_SLOTS
  {
    var o := DeleteSlot(c.store, c.queue, i);
    var deferred := o.result == DeleteDeferred;
    var lost := if deferred then c.lost - {i} else c.lost;
    var unsaved := if !deferred then c.unsaved else if i in c.lost then c.unsaved + {i} else c.unsaved - {i};
    (c.(store := o.store, queue := o.queue, lost := lost, unsaved := unsaved), o.result)
  }

  function StoreMove(c: Core, src: int, dst: int): (Core, DmResult)
    requires |c.store.slots| == MAX_SLOTS
  {
    var o := Move(c.store, c.queue, src, dst);
    var lost :=
      if o.result == Ok then c.lost - {src, dst}
      else if o.result == DeleteQueueFull then c.lost - {dst} + {src}
      else c.lost;
    (c.(store := o.store, queue := o.queue, lost := lost), o.result)
  }

  function StoreCommit(c: Core, i: int): (Core, DmResult)
    requires |c.store.slots| == MAX_SLOTS
  {
    var (s, rc) := DraftCommit(c.store, i);
    (c.(store := s), rc)
  }

  /** The store's callbacks do not look at the machine's own fields. */
  lemma MoveIgnoresTyping(c: Core, src: int, dst: int)
    requires |c.store.slots| == MAX_SLOTS
    ensures
      var (c1, rc) := StoreMove(c, src, dst);
      StoreMove(EnterTyping(c, Idle), src, dst) == (EnterTyping(c1, Idle), rc) && |c1.store.slots| == MAX_SLOTS
  {
    hide Move;
    MoveKeepsSlots(c.store, c.queue, src, dst);
  }

  lemma MoveKeepsSlots(s: Store, q: seq<Op>, src: int, dst: int)
    requires |s.slots| == MAX_SLOTS
    ensures |Move(s, q, src, dst).store.slots| == MAX_SLOTS
  {
  }

  lemma DeleteIgnoresTyping(c: Core, i: int)
    requires |c.store.slots| == MAX_SLOTS
    ensures
      var (c1, rc) := StoreDelete(c, i);
      StoreDelete(EnterTyping(c, Idle), i) == (EnterTyping(c1, Idle), rc) && |c1.store.slots| == MAX_SLOTS
  {
  }

  // ---- transitions ------------------------------------------------------------------

  function DoRec(c: Core, gate: Gate): Core
    requires |c.store.slots| == MAX_SLOTS
  {
    Say(c.(armed := false, store := DraftReset(c.store)), Recording, RecordingStarted, -1, -1, FbRec, gate)
  }

  function DoStop(c: Core, gate: Gate): Core
    requires |c.store.slots| == MAX_SLOTS
  {
    if c.store.draft == [] then Say(c, Idle, ErrorNoRecording, -1, -1, FbNoRec, gate)
    else Say(c, PendingAssign, RecordingStopped, -1, -1, FbStop, gate)
  }

  function DoOverflow(c: Core, gate: Gate): Core
    requires |c.store.slots| == MAX_SLOTS
  {
    Say(c, PendingAssign, ErrorOverflow, -1, -1, FbOverflow, gate)
  }

  function DoDeleteMode(c: Core): Core {
    Notify(c.(m := c.m.(state := DeletePending)), DeletePrompt, -1, -1).(armed := true)
  }

  function DoMoveMode(c: Core, gate: Gate): Core
    requires |c.store.slots| == MAX_SLOTS
  {
    Say(c.(m := c.m.(moveSource := -1)), MovePending, MovePrompt, -1, -1, FbMovePrompt, gate)
  }

  function DoStatus(c: Core, gate: Gate): Core
    requires |c.store.slots| == MAX_SLOTS
  {
    Speak(EnterTyping(c, Idle), FbStatusHeader, -1, -1, gate)
  }

  function DoPreview(c: Core): Core {
    Notify(c.(m := c.m.(state := PreviewPending)), PreviewPrompt, -1, -1).(armed := true)
  }

  /** The queue after a knob save, which is dropped silently when it does not fit. */
  function WithKnobs(q: seq<Op>, knobs: seq<Op>): seq<Op> {
    if knobs == [] || |q| >= QUEUE_LEN then q else q + [knobs[0]]
  }

  /** `knobs` are the values the pump persists; none when the style toggle is refused. */
  function DoKnob(c: Core, gate: Gate, knobs: seq<Op>): Core
    requires |c.store.slots| == MAX_SLOTS
  {
    var c1 := Notify(EnterTyping(c, Idle), SettingsChanged, -1, -1);
    Speak(c1.(queue := WithKnobs(c1.queue, knobs)), FbKnob, -1, -1, gate)
  }

  function SlotRecording(c: Core, i: int, gate: Gate): Core
    requires |c.store.slots| == MAX_SLOTS
  {
    if c.store.IsEmpty(i) then Say(c, Recording, ErrorSlotEmpty, i, -1, FbChainEmpty, gate)
    else
      var (s, rc) := DraftChain(c.store, i);
      if rc == RejectedFull then Say(c, Recording, ErrorChainFull, i, -1, FbChainNoRoom, gate)
      else Say(c.(store := s), Recording, ChainInserted, i, -1, FbChainInsert, gate)
  }

  function SlotAssign(c: Core, i: int, gate: Gate): Core
    requires |c.store.slots| == MAX_SLOTS
  {
    var c0 := c.(armed := false);
    if c0.store.IsEmpty(i) then AssignEmpty(c0, i, gate)
    else if !AutoOverwrite(i) then Say(c0, PendingAssign, ErrorSlotOccupied, i, -1, FbSlotFull, gate)
    else
      var (c1, rc) := StoreDelete(c0, i);
      if rc != Ok && rc != DeleteDeferred then Say(c1, PendingAssign, ErrorDeleteQueueFull, i, -1, FbDeleteQfull, gate)
      else AssignEmpty(c1, i, gate)
  }

  function AssignEmpty(c: Core, i: int, gate: Gate): Core
    requires |c.store.slots| == MAX_SLOTS
  {
    var (c1, rc) := StoreCommit(c, i);
    if rc == RejectedTooLarge then Say(c1, PendingAssign, ErrorTooLarge, i, -1, FbTooLarge, gate)
    else if rc != Ok then Say(c1, PendingAssign, ErrorSlotOccupied, i, -1, FbSlotFull, gate)
    else Say(c1.(m := c1.m.(postSave := i)), Idle, Saved, i, -1, FbSaved, gate)
  }

  function SlotDelete(c: Core, i: int, gate: Gate): Core
    requires |c.store.slots| == MAX_SLOTS
  {
    var c0 := c.(armed := false);
    if c0.store.IsEmpty(i) then Say(c0, Idle, ErrorSlotEmpty, i, -1, FbSlotEmpty, gate)
    else
      var (c1, rc) := StoreDelete(c0, i);
      if rc == DeleteQueueFull then Say(c1, Idle, ErrorDeleteQueueFull, i, -1, FbDeleteQfull, gate)
      else if rc == DeleteDeferred then TypingFinished(EnterTyping(c1, Idle), gate)
      else Say(c1, Idle, Deleted, i, -1, FbDeleted, gate)
  }

  function SlotMove(c: Core, i: int, gate: Gate): Core
    requires |c.store.slots| == MAX_SLOTS
  {
    var src := c.m.moveSource;
    if src < 0 then
      if c.store.IsEmpty(i) then Say(c, MovePending, ErrorSlotEmpty, i, -1, FbSlotEmpty, gate)
      else Say(c.(m := c.m.(moveSource := i)), MovePending, MoveSrcSelected, i, -1, FbMoveSrc, gate)
    else if src == i then
      Say(c.(m := c.m.(moveSource := -1), armed := false), Idle, MoveCancelled, -1, -1, FbMoveCancel, gate)
    else if c.store.IsEmpty(i) then MoveInto(c, src, i, gate)
    else if !AutoOverwrite(i) then Say(c, MovePending, ErrorSlotOccupied, i, -1, FbSlotFull, gate)
    else
      var (c1, rc) := StoreDelete(c, i);
      if rc != Ok && rc != DeleteDeferred then Say(c1, MovePending, ErrorDeleteQueueFull, i, -1, FbDeleteQfull, gate)
      else MoveInto(c1, src, i, gate)
  }

  function MoveInto(c: Core, src: int, dst: int, gate: Gate): Core
    requires |c.store.slots| == MAX_SLOTS
  {
    var (c1, rc) := StoreMove(c.(m := c.m.(moveSource := -1), armed := false), src, dst);
    if rc == RejectedTooLarge then Say(c1, Idle, ErrorTooLarge, dst, -1, FbTooLarge, gate)
    else if rc == SaveQueueFull then Say(c1, Idle, ErrorSaveQueueFull, dst, -1, FbSaveQfull, gate)
    else if rc == DeleteQueueFull then Say(c1, Idle, ErrorDeleteQueueFull, src, -1, FbDeleteQfull, gate)
    else Say(c1, Idle, Moved, dst, src, FbMoved, gate)
  }

  function SlotPreview(c: Core, i: int, gate: Gate): Core
    requires |c.store.slots| == MAX_SLOTS
  {
    TypingFinished(Notify(EnterTyping(c.(armed := false), Idle), PreviewReady, i, -1), gate)
  }

  function SlotPlay(c: Core, i: int, gate: Gate): Core
    requires |c.store.slots| == MAX_SLOTS
  {
    if c.store.IsEmpty(i) then Say(c, Idle, ErrorSlotEmpty, i, -1, FbSlotEmpty, gate)
    else Notify(c.(m := c.m.(state := Playing), store := MarkPlaying(c.store, i)), PlayStarted, i, -1)
  }

  function DoSlot(c: Core, i: int, gate: Gate): Core
    requires |c.store.slots| == MAX_SLOTS
  {
    match c.m.state
    case Recording => SlotRecording(c, i, gate)
    case PendingAssign => SlotAssign(c, i, gate)
    case DeletePending => SlotDelete(c, i, gate)
    case MovePending => SlotMove(c, i, gate)
    case PreviewPending => SlotPreview(c, i, gate)
    case Idle => SlotPlay(c, i, gate)
    case _ => c
  }

  function Dispatch(c: Core, cmd: Command, i: int, gate: Gate, knobs: seq<Op>): Core
    requires |c.store.slots| == MAX_SLOTS
  {
    if !Allowed(c.m.state, cmd) then c
    else match cmd
      case Rec => DoRec(c, gate)
      case Stp => DoStop(c, gate)
      case Del => DoDeleteMode(c)
      case Mov => DoMoveMode(c, gate)
      case SlotKey => DoSlot(c, i, gate)
      case Status => DoStatus(c, gate)
      case Preview => DoPreview(c)
      case FeedbackInc => DoKnob(c, gate, knobs)
      case FeedbackDec => DoKnob(c, gate, knobs)
      case StyleToggle => DoKnob(c, gate, knobs)
      case EraseToggle => DoKnob(c, gate, knobs)
      case TestReload => c
      case Overflow => DoOverflow(c, gate)
  }

  // ---- up-calls ---------------------------------------------------------------------

  /** Record one finished event; a full draft ends the take through the machine. */
  function RecordEvent(c: Core, e: Event, gate: Gate): Core
    requires |c.store.slots| == MAX_SLOTS
  {
    var (s, ok) := DraftAppend(c.store, e);
    if ok then c.(store := s) else Dispatch(c, Overflow, 0, gate, [])
  }

  function DeliverAsync(c: Core, outcome: DmResult, i: int, gate: Gate): Core
    requires |c.store.slots| == MAX_SLOTS
  {
    if c.m.state != Idle then c
    else match outcome
      case Ok => Say(c, Idle, Deleted, i, -1, FbDeleted, gate)
      case SaveFailed => Say(c, Idle, ErrorSaveFailed, i, -1, FbSaveFailed, gate)
      case DeleteFailed => Say(c, Idle, ErrorDeleteFailed, i, -1, FbDeleteFailed, gate)
      case _ => c
  }

  function EraseDue(c: Core): Core {
    var parked := if c.m.eraseActive then c.m else c.m.(eraseReturn := c.m.state, eraseActive := true);
    c.(m := parked.(state := TypingErase))
  }

  /** Both a drained and an aborted erase end here. */
  function EraseRestore(c: Core): Core {
    if !c.m.eraseActive then c else c.(m := c.m.(state := c.m.eraseReturn, eraseActive := false))
  }

  function Timeout(c: Core): Core {
    if !IsPending(c.m.state) then c
    else Notify(c.(m := c.m.(moveSource := -1, state := Idle)), PendingCancelled, -1, -1)
  }

  /** playback_finish of the emitter's slot: release it, settle the machine, then announce it. */
  function PlayFinished(c: Core, slot: int): Core {
    var released := c.(store := ClearPlaying(c.store));
    var settled := if c.m.state != Playing then released else released.(m := c.m.(state := Idle));
    Notify(settled, PlaybackFinished, slot, -1)
  }
}
