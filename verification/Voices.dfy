/** Every message handed to the pump says what its notification says, and both name the slot concerned. */
module Voices {
  import opened Config
  import opened StoreSpec
  import opened MachineSpec
  import opened System
  import opened SystemTheorems

  /** The message a notification goes with, raised by a machine in state `m`; some have none. */
  function VoiceOf(m: Machine, n: Note): seq<Speech> {
    match n.notice
    case RecordingStarted => [Speech(FbRec, -1, -1)]
    case RecordingStopped => [Speech(FbStop, -1, -1)]
    case ErrorNoRecording => [Speech(FbNoRec, -1, -1)]
    case ErrorOverflow => [Speech(FbOverflow, -1, -1)]
    case Saved => [Speech(FbSaved, n.slot, -1)]
    case Deleted => [Speech(FbDeleted, n.slot, -1)]
    case Moved => [Speech(FbMoved, n.slot2, n.slot)]
    case MovePrompt => [Speech(FbMovePrompt, -1, -1)]
    case MoveSrcSelected => [Speech(FbMoveSrc, n.slot, -1)]
    case MoveCancelled => [Speech(FbMoveCancel, -1, -1)]
    case ChainInserted => [Speech(FbChainInsert, n.slot, -1)]
    case SettingsChanged => [Speech(FbKnob, -1, -1)]
    case ErrorSlotEmpty => [Speech(if m.state == Recording then FbChainEmpty else FbSlotEmpty, n.slot, -1)]
    case ErrorSlotOccupied => [Speech(FbSlotFull, n.slot, -1)]
    case ErrorChainFull => [Speech(FbChainNoRoom, n.slot, -1)]
    case ErrorTooLarge => [Speech(FbTooLarge, n.slot, -1)]
    case ErrorSaveFailed => [Speech(FbSaveFailed, n.slot, -1)]
    case ErrorDeleteFailed => [Speech(FbDeleteFailed, n.slot, -1)]
    case ErrorSaveQueueFull => [Speech(FbSaveQfull, n.slot, -1)]
    case ErrorDeleteQueueFull => [Speech(FbDeleteQfull, n.slot, -1)]
    case _ => []
  }

  function Voices(m: Machine, notes: seq<Note>): seq<Speech> {
    if notes == [] then [] else Voices(m, notes[..|notes| - 1]) + VoiceOf(m, notes[|notes| - 1])
  }

  /**
   * A notification names slot `i`, the one its step is about: the key pressed, the slot owed a save or
   * named by a completion. A move names its source beside it, or alone when the delete of the source is
   * refused; a cancelled move names none.
   */
  predicate About(m: Machine, n: Note, i: int) {
    && (n.slot == i
        || (n.notice == MoveCancelled && n.slot == -1)
        || (n.notice == ErrorDeleteQueueFull && m.state == MovePending && n.slot == m.moveSource))
    && n.slot2 == if n.notice == Moved then m.moveSource else -1
  }

  /** The step from `c` to `c'` raises notifications about `i` and their messages, and no others. */
  ghost predicate Voiced(c: Core, c': Core, i: int) {
    && c.notes <= c'.notes && c'.cues == c.cues + Voices(c.m, c'.notes[|c.notes|..])
    && forall k :: |c.notes| <= k < |c'.notes| ==> About(c.m, c'.notes[k], i)
  }

  lemma OneMore(c: Core, c1: Core, c2: Core, n: Note, i: int)
    requires Voiced(c, c1, i) && About(c.m, n, i)
    requires c2.notes == c1.notes + [n] && c2.cues == c1.cues + VoiceOf(c.m, n)
    ensures Voiced(c, c2, i)
  {
    hide VoiceOf, Voices, About;
    assert c2.notes[|c.notes|..] == c1.notes[|c.notes|..] + [n];
    VoicesAppend(c.m, c1.notes[|c.notes|..], n);
    forall k | |c.notes| <= k < |c2.notes|
      ensures About(c.m, c2.notes[k], i)
    {
      if k < |c1.notes| {
        assert c2.notes[k] == c1.notes[k];
      }
    }
  }

  lemma VoicesAppend(m: Machine, notes: seq<Note>, n: Note)
    ensures Voices(m, notes + [n]) == Voices(m, notes) + VoiceOf(m, n)
  {
    assert (notes + [n])[..|notes|] == notes;
  }

  lemma Silent(c: Core, c1: Core, i: int)
    requires c1.notes == c.notes && c1.cues == c.cues
    ensures Voiced(c, c1, i)
  {
    assert c1.notes[|c.notes|..] == [];
  }

  lemma FinishVoiced(c: Core, c1: Core, gate: Gate, i: int)
    requires |c1.store.slots| == MAX_SLOTS && Voiced(c, c1, i) && (c1.m.postSave >= 0 ==> c1.m.postSave == i)
    ensures Voiced(c, TypingFinished(c1, gate), i)
  {
    hide Voiced, Voices;
    var c2 := TypingFinished(c1, gate);
    if c2.notes != c1.notes {
      var n := c2.notes[|c1.notes|];
      OneMore(c, c1, c2, n, i);
    } else {
      SameLogs(c, c1, c2, i);
    }
  }

  lemma SameLogs(c: Core, c1: Core, c2: Core, i: int)
    requires Voiced(c, c1, i) && c2.notes == c1.notes && c2.cues == c1.cues
    ensures Voiced(c, c2, i)
  {
  }

  lemma SayVoiced(
      c: Core, c1: Core, returnTo: State, notice: Notice, slot: int, slot2: int, kind: FbKind, gate: Gate, i: int)
    requires |c1.store.slots| == MAX_SLOTS && c1.notes == c.notes && c1.cues == c.cues
    requires c1.m.postSave >= 0 ==> c1.m.postSave == i
    requires
      var n := Note(notice, slot, slot2, returnTo);
      && About(c.m, n, i)
      && VoiceOf(c.m, n) == [if kind == FbMoved then Speech(kind, slot2, slot) else Speech(kind, slot, slot2)]
    ensures Voiced(c, Say(c1, returnTo, notice, slot, slot2, kind, gate), i)
  {
    hide Voiced, Voices, VoiceOf, About, TypingFinished;
    var c2 := Announced(c1, returnTo, notice, slot, slot2, kind);
    Silent(c, c1, i);
    OneMore(c, c1, c2, Note(notice, slot, slot2, returnTo), i);
    FinishVoiced(c, c2, gate, i);
  }

  // ---- the transitions ----------------------------------------------------------------------------------

  lemma AssignEmptyVoiced(c: Core, c1: Core, i: int, gate: Gate)
    requires |c1.store.slots| == MAX_SLOTS && c1.notes == c.notes && c1.cues == c.cues && c1.m.postSave == -1
    ensures Voiced(c, AssignEmpty(c1, i, gate), i)
  {
    hide Say, Total, Voiced;
    var c2 := StoreCommit(c1, i).0;
    SayVoiced(c, c2, PendingAssign, ErrorTooLarge, i, -1, FbTooLarge, gate, i);
    SayVoiced(c, c2, PendingAssign, ErrorSlotOccupied, i, -1, FbSlotFull, gate, i);
    SayVoiced(c, c2.(m := c2.m.(postSave := i)), Idle, Saved, i, -1, FbSaved, gate, i);
  }

  lemma DeleteLogs(c: Core, i: int)
    requires |c.store.slots| == MAX_SLOTS
    ensures
      var c1 := StoreDelete(c, i).0;
      |c1.store.slots| == MAX_SLOTS && c1.notes == c.notes && c1.cues == c.cues && c1.m == c.m
  {
  }

  lemma AssignVoiced(c: Core, i: int, gate: Gate)
    requires |c.store.slots| == MAX_SLOTS && c.m.postSave == -1
    ensures Voiced(c, SlotAssign(c, i, gate), i)
  {
    hide Say, Voiced, AssignEmpty, StoreDelete;
    var c0 := c.(armed := false);
    DeleteLogs(c0, i);
    var c1 := StoreDelete(c0, i).0;
    AssignEmptyVoiced(c, c0, i, gate);
    AssignEmptyVoiced(c, c1, i, gate);
    SayVoiced(c, c0, PendingAssign, ErrorSlotOccupied, i, -1, FbSlotFull, gate, i);
    SayVoiced(c, c1, PendingAssign, ErrorDeleteQueueFull, i, -1, FbDeleteQfull, gate, i);
  }

  lemma SlotDeleteVoiced(c: Core, i: int, gate: Gate)
    requires |c.store.slots| == MAX_SLOTS && c.m.postSave == -1 && c.m.state == DeletePending
    ensures Voiced(c, SlotDelete(c, i, gate), i)
  {
    hide Say, Voiced, StoreDelete, TypingFinished;
    var c0 := c.(armed := false);
    DeleteLogs(c0, i);
    var c1 := StoreDelete(c0, i).0;
    SayVoiced(c, c0, Idle, ErrorSlotEmpty, i, -1, FbSlotEmpty, gate, i);
    SayVoiced(c, c1, Idle, ErrorDeleteQueueFull, i, -1, FbDeleteQfull, gate, i);
    SayVoiced(c, c1, Idle, Deleted, i, -1, FbDeleted, gate, i);
    Silent(c, EnterTyping(c1, Idle), i);
    FinishVoiced(c, EnterTyping(c1, Idle), gate, i);
  }

  lemma MoveIntoVoiced(c: Core, c1: Core, src: int, dst: int, gate: Gate)
    requires |c1.store.slots| == MAX_SLOTS && c1.notes == c.notes && c1.cues == c.cues && c1.m.postSave == -1
    requires c.m.state == MovePending && c.m.moveSource == src
    ensures Voiced(c, MoveInto(c1, src, dst, gate), dst)
  {
    hide Say, Voiced, StoreMove;
    var c0 := c1.(m := c1.m.(moveSource := -1), armed := false);
    MoveLogs(c0, src, dst);
    var c2 := StoreMove(c0, src, dst).0;
    SayVoiced(c, c2, Idle, ErrorTooLarge, dst, -1, FbTooLarge, gate, dst);
    SayVoiced(c, c2, Idle, ErrorSaveQueueFull, dst, -1, FbSaveQfull, gate, dst);
    SayVoiced(c, c2, Idle, ErrorDeleteQueueFull, src, -1, FbDeleteQfull, gate, dst);
    SayVoiced(c, c2, Idle, Moved, dst, src, FbMoved, gate, dst);
  }

  lemma MoveLogs(c: Core, src: int, dst: int)
    requires |c.store.slots| == MAX_SLOTS
    ensures
      var c1 := StoreMove(c, src, dst).0;
      |c1.store.slots| == MAX_SLOTS && c1.notes == c.notes && c1.cues == c.cues && c1.m == c.m
  {
  }

  /** The move key before a source is selected, and on the source itself. */
  lemma SelectVoiced(c: Core, i: int, gate: Gate)
    requires |c.store.slots| == MAX_SLOTS && c.m.postSave == -1 && c.m.state == MovePending
    requires c.m.moveSource < 0 || c.m.moveSource == i
    ensures Voiced(c, SlotMove(c, i, gate), i)
  {
    hide Say, Voiced, StoreDelete, MoveInto;
    SayVoiced(c, c, MovePending, ErrorSlotEmpty, i, -1, FbSlotEmpty, gate, i);
    SayVoiced(c, c.(m := c.m.(moveSource := i)), MovePending, MoveSrcSelected, i, -1, FbMoveSrc, gate, i);
    SayVoiced(c, c.(m := c.m.(moveSource := -1), armed := false), Idle, MoveCancelled, -1, -1, FbMoveCancel, gate, i);
  }

  lemma SlotMoveVoiced(c: Core, i: int, gate: Gate)
    requires |c.store.slots| == MAX_SLOTS && c.m.postSave == -1 && c.m.state == MovePending
    ensures Voiced(c, SlotMove(c, i, gate), i)
  {
    hide Say, Voiced, StoreDelete, MoveInto;
    var src := c.m.moveSource;
    if src < 0 || src == i {
      SelectVoiced(c, i, gate);
    } else {
      DeleteLogs(c, i);
      var c1 := StoreDelete(c, i).0;
      MoveIntoVoiced(c, c, src, i, gate);
      MoveIntoVoiced(c, c1, src, i, gate);
      SayVoiced(c, c, MovePending, ErrorSlotOccupied, i, -1, FbSlotFull, gate, i);
      SayVoiced(c, c1, MovePending, ErrorDeleteQueueFull, i, -1, FbDeleteQfull, gate, i);
    }
  }

  lemma ChainVoiced(c: Core, i: int, gate: Gate)
    requires |c.store.slots| == MAX_SLOTS && c.m.postSave == -1 && c.m.state == Recording
    ensures Voiced(c, SlotRecording(c, i, gate), i)
  {
    hide Say, Voiced;
    SayVoiced(c, c, Recording, ErrorSlotEmpty, i, -1, FbChainEmpty, gate, i);
    SayVoiced(c, c, Recording, ErrorChainFull, i, -1, FbChainNoRoom, gate, i);
    SayVoiced(c, c.(store := DraftChain(c.store, i).0), Recording, ChainInserted, i, -1, FbChainInsert, gate, i);
  }

  /** A notification that goes with no message. */
  lemma NotifyVoiced(c: Core, c1: Core, notice: Notice, slot: int)
    requires c1.notes == c.notes && c1.cues == c.cues
    requires VoiceOf(c.m, Note(notice, slot, -1, c1.m.Effective())) == [] && notice != Moved
    ensures Voiced(c, Notify(c1, notice, slot, -1), slot)
  {
    hide Voiced, VoiceOf, Voices;
    Silent(c, c1, slot);
    OneMore(c, c1, Notify(c1, notice, slot, -1), Note(notice, slot, -1, c1.m.Effective()), slot);
  }

  lemma IdleSlotVoiced(c: Core, i: int, gate: Gate)
    requires |c.store.slots| == MAX_SLOTS && c.m.postSave == -1
    ensures c.m.state == PreviewPending ==> Voiced(c, SlotPreview(c, i, gate), i)
    ensures c.m.state == Idle ==> Voiced(c, SlotPlay(c, i, gate), i)
  {
    hide Say, Voiced, TypingFinished;
    var c1 := EnterTyping(c.(armed := false), Idle);
    NotifyVoiced(c, c1, PreviewReady, i);
    FinishVoiced(c, Notify(c1, PreviewReady, i, -1), gate, i);
    if c.m.state == Idle {
      SayVoiced(c, c, Idle, ErrorSlotEmpty, i, -1, FbSlotEmpty, gate, i);
      NotifyVoiced(c, c.(m := c.m.(state := Playing), store := MarkPlaying(c.store, i)), PlayStarted, i);
    }
  }

  lemma TakesVoiced(c: Core, gate: Gate)
    requires |c.store.slots| == MAX_SLOTS && c.m.postSave == -1
    ensures Voiced(c, DoRec(c, gate), -1) && Voiced(c, DoStop(c, gate), -1) && Voiced(c, DoOverflow(c, gate), -1)
  {
    hide Say, Voiced;
    var c0 := c.(armed := false, store := DraftReset(c.store));
    SayVoiced(c, c0, Recording, RecordingStarted, -1, -1, FbRec, gate, -1);
    SayVoiced(c, c, Idle, ErrorNoRecording, -1, -1, FbNoRec, gate, -1);
    SayVoiced(c, c, PendingAssign, RecordingStopped, -1, -1, FbStop, gate, -1);
    SayVoiced(c, c, PendingAssign, ErrorOverflow, -1, -1, FbOverflow, gate, -1);
  }

  /** STATUS speaks without a notification: its message is counted as given. */
  function WithHeader(c: Core): Core { Voice(c, FbStatusHeader, -1, -1) }

  lemma ModesVoiced(c: Core, gate: Gate, knobs: seq<Op>)
    requires |c.store.slots| == MAX_SLOTS && c.m.postSave == -1
    ensures Voiced(c, DoDeleteMode(c), -1) && Voiced(c, DoPreview(c), -1) && Voiced(c, DoMoveMode(c, gate), -1)
    ensures Voiced(WithHeader(c), DoStatus(c, gate), -1) && Voiced(c, DoKnob(c, gate, knobs), -1)
  {
    hide Say, Voiced, TypingFinished;
    NotifyVoiced(c, c.(m := c.m.(state := DeletePending)), DeletePrompt, -1);
    SameLogs(c, Notify(c.(m := c.m.(state := DeletePending)), DeletePrompt, -1, -1), DoDeleteMode(c), -1);
    NotifyVoiced(c, c.(m := c.m.(state := PreviewPending)), PreviewPrompt, -1);
    SameLogs(c, Notify(c.(m := c.m.(state := PreviewPending)), PreviewPrompt, -1, -1), DoPreview(c), -1);
    SayVoiced(c, c.(m := c.m.(moveSource := -1)), MovePending, MovePrompt, -1, -1, FbMovePrompt, gate, -1);
    Silent(WithHeader(c), Voice(EnterTyping(c, Idle), FbStatusHeader, -1, -1), -1);
    FinishVoiced(WithHeader(c), Voice(EnterTyping(c, Idle), FbStatusHeader, -1, -1), gate, -1);
    KnobVoiced(c, gate, knobs);
  }

  lemma KnobVoiced(c: Core, gate: Gate, knobs: seq<Op>)
    requires |c.store.slots| == MAX_SLOTS && c.m.postSave == -1
    ensures Voiced(c, DoKnob(c, gate, knobs), -1)
  {
    hide Voiced, TypingFinished, Voices;
    var c0 := EnterTyping(c, Idle);
    var c1 := Notify(c0, SettingsChanged, -1, -1);
    var c2 := Voice(c1.(queue := WithKnobs(c1.queue, knobs)), FbKnob, -1, -1);
    Silent(c, c0, -1);
    OneMore(c, c0, c2, Note(SettingsChanged, -1, -1, c0.m.Effective()), -1);
    FinishVoiced(c, c2, gate, -1);
  }

  /** The slot a step is about, or -1. */
  function Subject(w: World, st: Step): int
    requires Enabled(w, st)
  {
    match st
    case Press(cmd, i, _, _) => if cmd == SlotKey then i else -1
    case TypingDone(_) => w.core.m.postSave
    case Deliver(_) => w.completions[0].slot
    case PlayEnd => w.core.store.playing
    case _ => -1
  }

  /** The logs before a step, the message of an accepted STATUS included. */
  function Before(c: Core, st: Step): Core {
    if st.Press? && st.cmd == Status && c.m.state == Idle then WithHeader(c) else c
  }

  lemma SlotVoiced(c: Core, i: int, gate: Gate)
    requires |c.store.slots| == MAX_SLOTS && c.m.postSave == -1 && Settled(c.m.state)
    ensures Voiced(c, DoSlot(c, i, gate), i)
  {
    hide Voiced, SlotRecording, SlotAssign, SlotDelete, SlotMove, SlotPreview, SlotPlay;
    match c.m.state {
      case Recording => ChainVoiced(c, i, gate);
      case PendingAssign => AssignVoiced(c, i, gate);
      case DeletePending => SlotDeleteVoiced(c, i, gate);
      case MovePending => SlotMoveVoiced(c, i, gate);
      case _ => IdleSlotVoiced(c, i, gate);
    }
  }

  lemma DispatchVoiced(c: Core, cmd: Command, i: int, gate: Gate, knobs: seq<Op>)
    requires |c.store.slots| == MAX_SLOTS && (Settled(c.m.state) ==> c.m.postSave == -1)
    ensures
      var base := if cmd == Status && c.m.state == Idle then WithHeader(c) else c;
      Voiced(base, Dispatch(c, cmd, i, gate, knobs), if cmd == SlotKey then i else -1)
  {
    hide Voiced, DoSlot, DoRec, DoStop, DoOverflow, DoMoveMode, DoStatus, DoKnob, DoDeleteMode, DoPreview;
    Silent(c, c, if cmd == SlotKey then i else -1);
    if Settled(c.m.state) {
      TakesVoiced(c, gate);
      ModesVoiced(c, gate, knobs);
      SlotVoiced(c, i, gate);
    }
  }

  lemma AsyncVoiced(c: Core, c1: Core, rc: DmResult, i: int, gate: Gate)
    requires |c1.store.slots| == MAX_SLOTS && c1.notes == c.notes && c1.cues == c.cues && c1.m == c.m
    requires c.m.state == Idle ==> c.m.postSave == -1
    ensures Voiced(c, DeliverAsync(c1, rc, i, gate), i)
  {
    hide Say, Voiced;
    Silent(c, c1, i);
    if c1.m.state == Idle {
      SayVoiced(c, c1, Idle, Deleted, i, -1, FbDeleted, gate, i);
      SayVoiced(c, c1, Idle, ErrorSaveFailed, i, -1, FbSaveFailed, gate, i);
      SayVoiced(c, c1, Idle, ErrorDeleteFailed, i, -1, FbDeleteFailed, gate, i);
    }
  }

  lemma DeliverVoiced(w: World, gate: Gate)
    requires |w.core.store.slots| == MAX_SLOTS && w.completions != []
    requires w.core.m.state == Idle ==> w.core.m.postSave == -1
    ensures Voiced(w.core, DeliverStep(w, gate).core, w.completions[0].slot)
  {
    hide Voiced, DeliverAsync;
    match w.completions[0] {
      case DeleteDone(i, gen, ok) =>
        var (s, rc) := CompleteDelete(w.core.store, i, gen, ok);
        AsyncVoiced(w.core, Healed(w.core.(store := s), rc, i), rc, i, gate);
      case SaveFailedOn(i) => AsyncVoiced(w.core, w.core, SaveFailed, i, gate);
    }
  }

  lemma QuietStepsVoiced(w: World, st: Step)
    requires |w.core.store.slots| == MAX_SLOTS && Enabled(w, st)
    requires st.Expire? || st.Work? || st.EraseStart? || st.EraseEnd? || st.PlayEnd?
    ensures Voiced(w.core, Next(w, st).core, Subject(w, st))
  {
    hide Voiced, Failed, Spoiled;
    if st.PlayEnd? {
      var settled := w.core.(store := ClearPlaying(w.core.store), m := w.core.m.(state := Idle));
      NotifyVoiced(w.core, settled, PlaybackFinished, w.core.store.playing);
    } else if st.Expire? && IsPending(w.core.m.state) {
      var given := w.core.(armed := false, m := w.core.m.(moveSource := -1, state := Idle));
      NotifyVoiced(w.core, given, PendingCancelled, -1);
    } else {
      Silent(w.core, Next(w, st).core, Subject(w, st));
    }
  }

  lemma StepVoiced(w: World, st: Step)
    requires Inv(w) && Enabled(w, st)
    ensures |w.core.store.slots| == MAX_SLOTS
    ensures Voiced(Before(w.core, st), Next(w, st).core, Subject(w, st))
  {
    hide Body, Voiced, Dispatch, DeliverStep, TypingFinished, WithHeader;
    assert |w.core.store.slots| == MAX_SLOTS by { WorldSlots(w); }
    if st.Press? {
      DispatchVoiced(w.core, st.cmd, st.slot, st.gate, st.knobs);
    } else if st.Key? {
      DispatchVoiced(w.core, Overflow, 0, st.gate, []);
      Silent(w.core, w.core.(store := DraftAppend(w.core.store, st.event).0), -1);
    } else if st.TypingDone? {
      Silent(w.core, w.core, w.core.m.postSave);
      FinishVoiced(w.core, w.core, st.gate, w.core.m.postSave);
    } else if st.Deliver? {
      DeliverVoiced(w, st.gate);
    } else {
      QuietStepsVoiced(w, st);
    }
  }

  lemma WorldSlots(w: World)
    requires Inv(w)
    ensures |w.core.store.slots| == MAX_SLOTS
  {
  }

  /**
   * In every reachable step the messages handed to the pump are those its notifications go with, one for
   * one and in order, and all of them name the slot the step is about; STATUS alone speaks unannounced.
   */
  lemma MessagesSayWhatNotesSay(w0: World, steps: seq<Step>, st: Step)
    requires Booted(w0) && Legal(w0, steps) && Enabled(RunTo(w0, steps), st)
    ensures |RunTo(w0, steps).core.store.slots| == MAX_SLOTS
    ensures
      var w := RunTo(w0, steps);
      Voiced(Before(w.core, st), Next(w, st).core, Subject(w, st))
  {
    hide Inv, Booted, Voiced, Next;
    BootKeeps(w0);
    RunKeeps(w0, steps);
    StepVoiced(RunTo(w0, steps), st);
  }
}
