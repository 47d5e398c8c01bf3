/**
 * dm_machine.c as it runs: the only writer of `state`, over an arena-backed store and its storage
 * sink. Every method is proved to do to the whole core what MachineSpec says.
 */
module MacroMachine {
  import opened Config
  import opened StoreSpec
  import opened SlotArena
  import opened MachineSpec
  import opened System

  class Machine {
    var state: State
    var returnState: State
    var eraseReturn: State
    var moveSource: int
    var postSave: int
    var eraseActive: bool
    const store: SlotStore
    var armed: bool         // the shell's assign/move timer is running
    var notes: seq<Note>    // notifications raised so far
    var cues: seq<Speech>   // messages handed to the pump so far
    ghost var lost: set<int>
    ghost var unsaved: set<int>

    ghost function Repr(): set<object> {
      {this, store, store.arena, store.meta, store.pendingDelete, store.generation, store.draft}
    }

    ghost predicate Valid()
      reads Repr()
    {
      store.Valid() && |store.model.slots| == MAX_SLOTS
    }

    ghost function Value(): Core
      reads this, store, store.sink
    {
      Core(MachineSpec.Machine(state, returnState, eraseReturn, moveSource, postSave, eraseActive),
           store.model, store.sink.queue, armed, notes, cues, lost, unsaved)
    }

    /** The composed firmware this instance is part of. */
    ghost function Here(): World
      reads this, store, store.sink
    {
      World(Value(), store.sink.flash, store.sink.completions)
    }

    constructor (store: SlotStore)
      requires store.Valid() && |store.model.slots| == MAX_SLOTS
      ensures Valid() && this.store == store
      ensures Value() == Core(INITIAL_MACHINE, store.model, store.sink.queue, false, [], [], {}, {})
    {
      state, returnState, eraseReturn := Idle, Idle, Idle;
      moveSource, postSave, eraseActive := -1, -1, false;
      this.store := store;
      armed, notes, cues, lost, unsaved := false, [], [], {}, {};
    }

    function Effective(): State
      reads this
    {
      if state == TypingFeedback then returnState else if state == TypingErase then eraseReturn else state
    }

    // ---- small helpers ------------------------------------------------------------

    method EnterTyping(returnTo: State)
      requires Valid()
      modifies this`returnState, this`state
      ensures Valid() && Value() == MachineSpec.EnterTyping(old(Value()), returnTo)
    {
      returnState := returnTo;
      state := TypingFeedback;
    }

    method Notify(notice: Notice, slot: int, slot2: int)
      requires Valid()
      modifies this`notes
      ensures Valid() && Value() == MachineSpec.Notify(old(Value()), notice, slot, slot2)
    {
      notes := notes + [Note(notice, slot, slot2, Effective())];
    }

    method SetTimer(on: bool)
      requires Valid()
      modifies this`armed
      ensures Valid() && Value() == old(Value()).(armed := on)
    {
      armed := on;
    }

    method SetMoveSource(source: int)
      requires Valid()
      modifies this`moveSource
      ensures Valid() && Value() == old(Value()).(m := old(Value()).m.(moveSource := source))
    {
      moveSource := source;
    }

    method SetPostSave(slot: int)
      requires Valid()
      modifies this`postSave
      ensures Valid() && Value() == old(Value()).(m := old(Value()).m.(postSave := slot))
    {
      postSave := slot;
    }

    method SetState(s: State)
      requires Valid()
      modifies this`state
      ensures Valid() && Value() == old(Value()).(m := old(Value()).m.(state := s))
    {
      state := s;
    }

    /** The speak callback: a message below the level finishes at once, inside the transition. */
    method Speak(kind: FbKind, slot: int, slot2: int, gate: Gate)
      requires Valid()
      modifies Repr(), store.sink`queue
      ensures Valid() && Value() == MachineSpec.Speak(old(Value()), kind, slot, slot2, gate)
      decreases if postSave >= 0 then 1 else 0, 1
    {
      Voice(kind, slot, slot2);
      if kind !in gate {
        TypingFinished(gate);
      }
    }

    method Voice(kind: FbKind, slot: int, slot2: int)
      requires Valid()
      modifies this`cues
      ensures Valid() && Value() == MachineSpec.Voice(old(Value()), kind, slot, slot2)
    {
      cues := cues + [Speech(kind, slot, slot2)];
    }

    method Say(returnTo: State, notice: Notice, slot: int, slot2: int, kind: FbKind, gate: Gate)
      requires Valid()
      modifies Repr(), store.sink`queue
      ensures Valid() && Value() == MachineSpec.Say(old(Value()), returnTo, notice, slot, slot2, kind, gate)
    {
      hide MachineSpec.Speak, MachineSpec.Say;
      SayIsSpeak(Value(), returnTo, notice, slot, slot2, kind, gate);
      EnterTyping(returnTo);
      Notify(notice, slot, slot2);
      if kind == FbMoved {
        Speak(kind, slot2, slot, gate);
      } else {
        Speak(kind, slot, slot2, gate);
      }
    }

    // ---- the store callbacks --------------------------------------------------------

    method StorePersist(i: int) returns (rc: DmResult)
      requires Valid()
      modifies store.sink`queue, this`lost
      ensures Valid() && MachineSpec.StorePersist(old(Value()), i) == (Value(), rc)
    {
      rc := store.Persist(i);
      lost := if !IsNvs(i) then lost else if rc == Ok then lost - {i} else lost + {i};
    }

    method StoreDelete(i: int) returns (rc: DmResult)
      requires Valid()
      modifies Repr() - {this}, this`lost, this`unsaved, store.sink`queue
      ensures Valid() && MachineSpec.StoreDelete(old(Value()), i) == (Value(), rc)
    {
      rc := store.Delete(i);
      if rc == DeleteDeferred {
        unsaved := if i in lost then unsaved + {i} else unsaved - {i};
        lost := lost - {i};
      }
    }

    method StoreMove(src: int, dst: int) returns (rc: DmResult)
      requires Valid()
      modifies Repr() - {this}, store.sink`queue, this`lost
      ensures Valid() && MachineSpec.StoreMove(old(Value()), src, dst) == (Value(), rc)
    {
      rc := store.Move(src, dst);
      if rc == Ok {
        lost := lost - {src, dst};
      } else if rc == DeleteQueueFull {
        lost := lost - {dst} + {src};
      }
    }

    method StoreCommit(i: int) returns (rc: DmResult)
      requires Valid()
      modifies Repr() - {this}, store.sink`queue
      ensures Valid() && MachineSpec.StoreCommit(old(Value()), i) == (Value(), rc)
    {
      rc := store.DraftCommit(i);
    }

    method StoreChain(i: int) returns (rc: DmResult)
      requires Valid()
      modifies Repr() - {this}, store.sink`queue
      ensures Valid() && (Value().store, rc) == DraftChain(old(store.model), i)
      ensures Value() == old(Value()).(store := Value().store)
    {
      rc := store.DraftChain(i);
    }

    method StoreDraftReset()
      requires Valid()
      modifies Repr() - {this}, store.sink`queue
      ensures Valid() && Value() == old(Value()).(store := DraftReset(old(store.model)))
    {
      store.DraftReset();
    }

    // ---- up-calls --------------------------------------------------------------------

    method TypingFinished(gate: Gate)
      requires Valid()
      modifies Repr(), store.sink`queue
      ensures Valid() && Value() == MachineSpec.TypingFinished(old(Value()), gate)
      decreases if postSave >= 0 then 1 else 0, 0
    {
      var owed := postSave;
      Settle();
      if owed >= 0 {
        var rc := StorePersist(owed);
        if rc == SaveQueueFull {
          EnterTyping(state);
          Notify(ErrorSaveQueueFull, owed, -1);
          Speak(FbSaveQfull, owed, -1, gate);
        }
      }
    }

    method Settle()
      requires Valid()
      modifies this`postSave, this`state, this`armed
      ensures Valid() && Value() == MachineSpec.Settle(old(Value()))
    {
      postSave := -1;
      state := returnState;
      if IsPending(state) {
        armed := true;
      }
    }

    method DeliverAsync(outcome: DmResult, slot: int, gate: Gate)
      requires Valid()
      modifies Repr(), store.sink`queue
      ensures Valid() && Value() == MachineSpec.DeliverAsync(old(Value()), outcome, slot, gate)
    {
      hide MachineSpec.Say;
      if state == Idle {
        match outcome {
          case Ok => Say(Idle, Deleted, slot, -1, FbDeleted, gate);
          case SaveFailed => Say(Idle, ErrorSaveFailed, slot, -1, FbSaveFailed, gate);
          case DeleteFailed => Say(Idle, ErrorDeleteFailed, slot, -1, FbDeleteFailed, gate);
          case _ =>
        }
      }
    }

    method EraseDue()
      requires Valid()
      modifies this`state, this`eraseReturn, this`eraseActive
      ensures Valid() && Value() == MachineSpec.EraseDue(old(Value()))
    {
      if !eraseActive {
        eraseReturn := state;
        eraseActive := true;
      }
      state := TypingErase;
    }

    method EraseRestore()
      requires Valid()
      modifies this`state, this`eraseActive
      ensures Valid() && Value() == MachineSpec.EraseRestore(old(Value()))
    {
      if eraseActive {
        state := eraseReturn;
        eraseActive := false;
      }
    }

    method Timeout()
      requires Valid()
      modifies this`state, this`moveSource, this`notes
      ensures Valid() && Value() == MachineSpec.Timeout(old(Value()))
    {
      if IsPending(state) {
        SetMoveSource(-1);
        SetState(Idle);
        Notify(PendingCancelled, -1, -1);
      }
    }

    /** playback_finish together with dm_machine_play_finished. */
    method PlayFinished(slot: int)
      requires Valid()
      modifies Repr()
      ensures Valid() && Value() == MachineSpec.PlayFinished(old(Value()), slot)
    {
      store.ClearPlaying();
      if state == Playing {
        SetState(Idle);
      }
      Notify(PlaybackFinished, slot, -1);
    }

    /** The listener's record_event: a full draft ends the take through the machine. */
    method RecordEvent(e: Event, gate: Gate)
      requires Valid()
      modifies Repr(), store.sink`queue
      ensures Valid() && Value() == MachineSpec.RecordEvent(old(Value()), e, gate)
    {
      hide MachineSpec.Dispatch;
      var ok := store.DraftAppend(e);
      if !ok {
        assert Value() == old(Value());
        Dispatch(Overflow, 0, gate, []);
      }
    }

    // ---- commands ------------------------------------------------------------------------

    method Dispatch(cmd: Command, param: int, gate: Gate, knobs: seq<Op>)
      requires Valid() && forall k :: 0 <= k < |knobs| ==> knobs[k].SaveKnobs?
      modifies Repr(), store.sink`queue
      ensures Valid() && Value() == MachineSpec.Dispatch(old(Value()), cmd, param, gate, knobs)
    {
      hide MachineSpec.DoRec, MachineSpec.DoStop, MachineSpec.DoDeleteMode, MachineSpec.DoMoveMode, MachineSpec.DoSlot;
      hide MachineSpec.DoStatus, MachineSpec.DoPreview, MachineSpec.DoKnob, MachineSpec.DoOverflow;
      if !Allowed(state, cmd) {
        return;
      }
      match cmd {
        case Rec => DoRec(gate);
        case Stp => DoStop(gate);
        case Del => DoDeleteMode();
        case Mov => DoMoveMode(gate);
        case SlotKey => DoSlot(param, gate);
        case Status => DoStatus(gate);
        case Preview => DoPreview();
        case FeedbackInc => DoKnob(gate, knobs);
        case FeedbackDec => DoKnob(gate, knobs);
        case StyleToggle => DoKnob(gate, knobs);
        case EraseToggle => DoKnob(gate, knobs);
        case TestReload =>
        case Overflow => DoOverflow(gate);
      }
    }

    method DoRec(gate: Gate)
      requires Valid()
      modifies Repr(), store.sink`queue
      ensures Valid() && Value() == MachineSpec.DoRec(old(Value()), gate)
    {
      hide MachineSpec.Say;
      SetTimer(false);
      StoreDraftReset();
      Say(Recording, RecordingStarted, -1, -1, FbRec, gate);
    }

    method DoStop(gate: Gate)
      requires Valid()
      modifies Repr(), store.sink`queue
      ensures Valid() && Value() == MachineSpec.DoStop(old(Value()), gate)
    {
      hide MachineSpec.Say;
      var count := DraftCount();
      if count == 0 {
        Say(Idle, ErrorNoRecording, -1, -1, FbNoRec, gate);
      } else {
        Say(PendingAssign, RecordingStopped, -1, -1, FbStop, gate);
      }
    }

    method DraftCount() returns (n: nat)
      requires Valid()
      ensures n == |store.model.draft|
    {
      n := store.draftCount;
    }

    method DoOverflow(gate: Gate)
      requires Valid()
      modifies Repr(), store.sink`queue
      ensures Valid() && Value() == MachineSpec.DoOverflow(old(Value()), gate)
    {
      hide MachineSpec.Say;
      Say(PendingAssign, ErrorOverflow, -1, -1, FbOverflow, gate);
    }

    method DoDeleteMode()
      requires Valid()
      modifies Repr(), store.sink`queue
      ensures Valid() && Value() == MachineSpec.DoDeleteMode(old(Value()))
    {
      SetState(DeletePending);
      Notify(DeletePrompt, -1, -1);
      SetTimer(true);
    }

    method DoPreview()
      requires Valid()
      modifies Repr(), store.sink`queue
      ensures Valid() && Value() == MachineSpec.DoPreview(old(Value()))
    {
      SetState(PreviewPending);
      Notify(PreviewPrompt, -1, -1);
      SetTimer(true);
    }

    method DoMoveMode(gate: Gate)
      requires Valid()
      modifies Repr(), store.sink`queue
      ensures Valid() && Value() == MachineSpec.DoMoveMode(old(Value()), gate)
    {
      hide MachineSpec.Say;
      SetMoveSource(-1);
      Say(MovePending, MovePrompt, -1, -1, FbMovePrompt, gate);
    }

    method DoStatus(gate: Gate)
      requires Valid()
      modifies Repr(), store.sink`queue
      ensures Valid() && Value() == MachineSpec.DoStatus(old(Value()), gate)
    {
      hide MachineSpec.Speak;
      EnterTyping(Idle);
      Speak(FbStatusHeader, -1, -1, gate);
    }

    method DoKnob(gate: Gate, knobs: seq<Op>)
      requires Valid() && forall k :: 0 <= k < |knobs| ==> knobs[k].SaveKnobs?
      modifies Repr(), store.sink`queue
      ensures Valid() && Value() == MachineSpec.DoKnob(old(Value()), gate, knobs)
    {
      hide MachineSpec.Speak;
      EnterTyping(Idle);
      Notify(SettingsChanged, -1, -1);
      ApplyKnob(knobs);
      Speak(FbKnob, -1, -1, gate);
    }

    method ApplyKnob(knobs: seq<Op>)
      requires Valid() && forall k :: 0 <= k < |knobs| ==> knobs[k].SaveKnobs?
      modifies store.sink`queue
      ensures Valid()
      ensures Value() == old(Value()).(queue := WithKnobs(old(store.sink.queue), knobs))
    {
      if knobs != [] {
        store.sink.SaveKnobValues(knobs[0].level, knobs[0].style, knobs[0].erase);
      }
    }

    // ---- slot presses --------------------------------------------------------------------

    method DoSlot(i: int, gate: Gate)
      requires Valid()
      modifies Repr(), store.sink`queue
      ensures Valid() && Value() == MachineSpec.DoSlot(old(Value()), i, gate)
    {
      hide MachineSpec.SlotRecording, MachineSpec.SlotAssign, MachineSpec.SlotDelete, MachineSpec.SlotMove;
      hide MachineSpec.SlotPreview, MachineSpec.SlotPlay;
      match state {
        case Recording => SlotRecording(i, gate);
        case PendingAssign => SlotAssign(i, gate);
        case DeletePending => SlotDelete(i, gate);
        case MovePending => SlotMove(i, gate);
        case PreviewPending => SlotPreview(i, gate);
        case Idle => SlotPlay(i, gate);
        case _ =>
      }
    }

    method SlotRecording(i: int, gate: Gate)
      requires Valid()
      modifies Repr(), store.sink`queue
      ensures Valid() && Value() == MachineSpec.SlotRecording(old(Value()), i, gate)
    {
      hide MachineSpec.Say;
      var empty := store.IsEmpty(i);
      if empty {
        Say(Recording, ErrorSlotEmpty, i, -1, FbChainEmpty, gate);
        return;
      }
      var rc := StoreChain(i);
      if rc == RejectedFull {
        Say(Recording, ErrorChainFull, i, -1, FbChainNoRoom, gate);
      } else {
        Say(Recording, ChainInserted, i, -1, FbChainInsert, gate);
      }
    }

    method SlotAssign(i: int, gate: Gate)
      requires Valid()
      modifies Repr(), store.sink`queue
      ensures Valid() && Value() == MachineSpec.SlotAssign(old(Value()), i, gate)
    {
      hide MachineSpec.Say, MachineSpec.AssignEmpty, MachineSpec.StoreDelete;
      SetTimer(false);
      var empty := store.IsEmpty(i);
      if !empty {
        if !AutoOverwrite(i) {
          Say(PendingAssign, ErrorSlotOccupied, i, -1, FbSlotFull, gate);
          return;
        }
        var rc := StoreDelete(i);
        if rc != Ok && rc != DeleteDeferred {
          Say(PendingAssign, ErrorDeleteQueueFull, i, -1, FbDeleteQfull, gate);
          return;
        }
      }
      AssignEmpty(i, gate);
    }

    method AssignEmpty(i: int, gate: Gate)
      requires Valid()
      modifies Repr(), store.sink`queue
      ensures Valid() && Value() == MachineSpec.AssignEmpty(old(Value()), i, gate)
    {
      hide MachineSpec.Say, MachineSpec.StoreCommit;
      var rc := StoreCommit(i);
      if rc == RejectedTooLarge {
        Say(PendingAssign, ErrorTooLarge, i, -1, FbTooLarge, gate);
      } else if rc != Ok {
        Say(PendingAssign, ErrorSlotOccupied, i, -1, FbSlotFull, gate);
      } else {
        SetPostSave(i);
        Say(Idle, Saved, i, -1, FbSaved, gate);
      }
    }

    method SlotDelete(i: int, gate: Gate)
      requires Valid()
      modifies Repr(), store.sink`queue
      ensures Valid() && Value() == MachineSpec.SlotDelete(old(Value()), i, gate)
    {
      hide MachineSpec.Speak, MachineSpec.StoreDelete, MachineSpec.TypingFinished;
      SetTimer(false);
      var empty := store.IsEmpty(i);
      if empty {
        Say(Idle, ErrorSlotEmpty, i, -1, FbSlotEmpty, gate);
        return;
      }
      DeleteOccupied(i, gate);
    }

    method DeleteOccupied(i: int, gate: Gate)
      requires Valid() && !store.model.IsEmpty(i) && !armed
      modifies Repr(), store.sink`queue
      ensures Valid() && Value() == MachineSpec.SlotDelete(old(Value()), i, gate)
    {
      hide MachineSpec.Speak, MachineSpec.Say, MachineSpec.TypingFinished, MachineSpec.StoreDelete;
      DeleteIgnoresTyping(Value(), i);
      ghost var c1 := MachineSpec.StoreDelete(Value(), i).0;
      SayIsSpeak(c1, Idle, ErrorDeleteQueueFull, i, -1, FbDeleteQfull, gate);
      SayIsSpeak(c1, Idle, Deleted, i, -1, FbDeleted, gate);
      EnterTyping(Idle);
      var rc := StoreDelete(i);
      AnnounceDelete(rc, i, gate);
    }

    /** The message a delete speaks, unless its outcome is still to come. */
    method AnnounceDelete(rc: DmResult, i: int, gate: Gate)
      requires Valid()
      modifies Repr(), store.sink`queue
      ensures
        Valid() &&
        var c := old(Value());
        Value()
        == if rc == DeleteQueueFull then
             MachineSpec.Speak(MachineSpec.Notify(c, ErrorDeleteQueueFull, i, -1), FbDeleteQfull, i, -1, gate)
           else if rc == DeleteDeferred then MachineSpec.TypingFinished(c, gate)
           else MachineSpec.Speak(MachineSpec.Notify(c, Deleted, i, -1), FbDeleted, i, -1, gate)
    {
      hide MachineSpec.Speak, MachineSpec.TypingFinished;
      if rc == DeleteQueueFull {
        Notify(ErrorDeleteQueueFull, i, -1);
        Speak(FbDeleteQfull, i, -1, gate);
      } else if rc == DeleteDeferred {
        TypingFinished(gate);
      } else {
        Notify(Deleted, i, -1);
        Speak(FbDeleted, i, -1, gate);
      }
    }

    method SlotMove(i: int, gate: Gate)
      requires Valid()
      modifies Repr(), store.sink`queue
      ensures Valid() && Value() == MachineSpec.SlotMove(old(Value()), i, gate)
    {
      hide MachineSpec.Say, MachineSpec.MoveInto, MachineSpec.StoreDelete;
      var src := moveSource;
      if src < 0 {
        SelectSource(i, gate);
        return;
      }
      if src == i {
        SetMoveSource(-1);
        SetTimer(false);
        Say(Idle, MoveCancelled, -1, -1, FbMoveCancel, gate);
        return;
      }
      MoveTo(src, i, gate);
    }

    method SelectSource(i: int, gate: Gate)
      requires Valid() && moveSource < 0
      modifies Repr(), store.sink`queue
      ensures Valid() && Value() == MachineSpec.SlotMove(old(Value()), i, gate)
    {
      hide MachineSpec.Say, MachineSpec.MoveInto, MachineSpec.StoreDelete;
      var empty := store.IsEmpty(i);
      if empty {
        Say(MovePending, ErrorSlotEmpty, i, -1, FbSlotEmpty, gate);
      } else {
        SetMoveSource(i);
        Say(MovePending, MoveSrcSelected, i, -1, FbMoveSrc, gate);
      }
    }

    method MoveTo(src: int, dst: int, gate: Gate)
      requires Valid() && moveSource == src && src >= 0 && src != dst
      modifies Repr(), store.sink`queue
      ensures Valid() && Value() == MachineSpec.SlotMove(old(Value()), dst, gate)
    {
      hide MachineSpec.Say, MachineSpec.MoveInto, MachineSpec.StoreDelete;
      var empty := store.IsEmpty(dst);
      if !empty {
        if !AutoOverwrite(dst) {
          Say(MovePending, ErrorSlotOccupied, dst, -1, FbSlotFull, gate);
          return;
        }
        var rc := StoreDelete(dst);
        if rc != Ok && rc != DeleteDeferred {
          Say(MovePending, ErrorDeleteQueueFull, dst, -1, FbDeleteQfull, gate);
          return;
        }
      }
      MoveInto(src, dst, gate);
    }

    method MoveInto(src: int, dst: int, gate: Gate)
      requires Valid()
      modifies Repr(), store.sink`queue
      ensures Valid() && Value() == MachineSpec.MoveInto(old(Value()), src, dst, gate)
    {
      hide MachineSpec.Speak, MachineSpec.Say, MachineSpec.StoreMove;
      SetMoveSource(-1);
      SetTimer(false);
      MoveIgnoresTyping(Value(), src, dst);
      ghost var c1 := MachineSpec.StoreMove(Value(), src, dst).0;
      SayIsSpeak(c1, Idle, ErrorTooLarge, dst, -1, FbTooLarge, gate);
      SayIsSpeak(c1, Idle, ErrorSaveQueueFull, dst, -1, FbSaveQfull, gate);
      SayIsSpeak(c1, Idle, ErrorDeleteQueueFull, src, -1, FbDeleteQfull, gate);
      SayIsSpeak(c1, Idle, Moved, dst, src, FbMoved, gate);
      EnterTyping(Idle);
      var rc := StoreMove(src, dst);
      AnnounceMove(rc, src, dst, gate);
    }

    /** The message a finished move speaks. */
    method AnnounceMove(rc: DmResult, src: int, dst: int, gate: Gate)
      requires Valid()
      modifies Repr(), store.sink`queue
      ensures
        Valid() &&
        var c := old(Value());
        Value()
        == if rc == RejectedTooLarge then
             MachineSpec.Speak(MachineSpec.Notify(c, ErrorTooLarge, dst, -1), FbTooLarge, dst, -1, gate)
           else if rc == SaveQueueFull then
             MachineSpec.Speak(MachineSpec.Notify(c, ErrorSaveQueueFull, dst, -1), FbSaveQfull, dst, -1, gate)
           else if rc == DeleteQueueFull then
             MachineSpec.Speak(MachineSpec.Notify(c, ErrorDeleteQueueFull, src, -1), FbDeleteQfull, src, -1, gate)
           else MachineSpec.Speak(MachineSpec.Notify(c, Moved, dst, src), FbMoved, src, dst, gate)
    {
      hide MachineSpec.Speak;
      if rc == RejectedTooLarge {
        Notify(ErrorTooLarge, dst, -1);
        Speak(FbTooLarge, dst, -1, gate);
      } else if rc == SaveQueueFull {
        Notify(ErrorSaveQueueFull, dst, -1);
        Speak(FbSaveQfull, dst, -1, gate);
      } else if rc == DeleteQueueFull {
        Notify(ErrorDeleteQueueFull, src, -1);
        Speak(FbDeleteQfull, src, -1, gate);
      } else {
        Notify(Moved, dst, src);
        Speak(FbMoved, src, dst, gate);
      }
    }

    method SlotPreview(i: int, gate: Gate)
      requires Valid()
      modifies Repr(), store.sink`queue
      ensures Valid() && Value() == MachineSpec.SlotPreview(old(Value()), i, gate)
    {
      hide MachineSpec.TypingFinished;
      SetTimer(false);
      EnterTyping(Idle);
      Notify(PreviewReady, i, -1);
      TypingFinished(gate);
    }

    method SlotPlay(i: int, gate: Gate)
      requires Valid()
      modifies Repr(), store.sink`queue
      ensures Valid() && Value() == MachineSpec.SlotPlay(old(Value()), i, gate)
    {
      hide MachineSpec.Say;
      var empty := store.IsEmpty(i);
      if empty {
        Say(Idle, ErrorSlotEmpty, i, -1, FbSlotEmpty, gate);
        return;
      }
      SetState(Playing);
      store.MarkPlaying(i);
      Notify(PlayStarted, i, -1);
    }

    // ---- the storage side ------------------------------------------------------------------

    method CompleteStored(i: int, gen: nat, ok: bool) returns (rc: DmResult)
      requires Valid()
      modifies Repr() - {this}, this`lost
      ensures Valid()
      ensures
        var (s, result) := CompleteDelete(old(store.model), i, gen, ok);
        rc == result && Value() == Healed(old(Value()).(store := s), rc, i)
    {
      rc := store.CompleteDelete(i, gen, ok);
      if rc == DeleteFailed && i !in unsaved {
        lost := lost - {i};
      }
    }

    /** dm_completion_handler: applies the oldest outcome on the system work queue. */
    method HandleCompletion(gate: Gate)
      requires Valid() && store.sink.completions != []
      modifies Repr(), store.sink`queue, store.sink`completions
      ensures Valid() && Here() == DeliverStep(old(Here()), gate)
    {
      hide MachineSpec.DeliverAsync, Healed, CompleteDelete;
      var c := store.sink.completions[0];
      store.sink.completions := store.sink.completions[1..];
      match c {
        case DeleteDone(i, gen, ok) =>
          var rc := CompleteStored(i, gen, ok);
          DeliverAsync(rc, i, gate);
        case SaveFailedOn(i) =>
          DeliverAsync(SaveFailed, i, gate);
      }
    }

    /** One iteration of the storage worker; `ok` is the verdict of the settings backend. */
    method RunStorage(ok: bool)
      requires Valid() && store.sink.queue != []
      modifies store.sink, this`lost, this`unsaved
      ensures Valid() && Here() == WorkStep(old(Here()), ok)
    {
      ghost var hit, spoiled := Failed(store.sink.queue, ok), Spoiled(store.sink.queue, ok);
      store.sink.WorkOne(ok);
      lost, unsaved := lost + hit, unsaved + spoiled;
    }

    /** Any step of the composed firmware, taken on the running objects. */
    method Take(st: Step)
      requires Valid() && Enabled(Here(), st)
      modifies Repr(), store.sink
      ensures Valid() && Here() == Next(old(Here()), st)
    {
      hide MachineSpec.Dispatch, MachineSpec.RecordEvent, MachineSpec.TypingFinished, MachineSpec.Timeout;
      hide MachineSpec.EraseDue, MachineSpec.EraseRestore, MachineSpec.PlayFinished, WorkStep, DeliverStep;
      match st {
        case Press(cmd, i, gate, knobs) => Dispatch(cmd, i, gate, knobs);
        case Key(e, gate) => RecordEvent(e, gate);
        case TypingDone(gate) => TypingFinished(gate);
        case Expire =>
          SetTimer(false);
          Timeout();
        case Work(ok) => RunStorage(ok);
        case Deliver(gate) => HandleCompletion(gate);
        case EraseStart => EraseDue();
        case EraseEnd => EraseRestore();
        case PlayEnd => PlayFinished(store.playingSlot);
      }
    }
  }
}
