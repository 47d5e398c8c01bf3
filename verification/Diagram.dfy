/**
 * The state diagram of the command machine, command by command, and what it is for: a take that is
 * stopped can be saved, and a saved macro can be played.
 */
module Diagram {
  import opened Config
  import opened StoreSpec
  import opened StoreLaws
  import opened MachineSpec
  import opened System
  import opened SystemTheorems
  import opened SystemModes
  import opened Refusals

  /** Pool space that clearing slot `i` gives back at once: a leaving NVS slot keeps its events. */
  function FreedBy(s: Store, i: int): nat
    requires |s.slots| == MAX_SLOTS
  {
    if IsNvs(i) then 0 else |s.View(i)|
  }

  /** An assign to slot `i` goes through: it is free or is freed, and the draft fits its class and the pool. */
  predicate Assigns(c: Core, i: int)
    requires |c.store.slots| == MAX_SLOTS && IsSlot(i)
  {
    && (c.store.IsEmpty(i) || Overwrites(c, i))
    && (IsNvs(i) ==> |c.store.draft| <= MAX_EVENTS_NVS)
    && c.store.playing == -1
    && |c.store.draft| + Total(c.store.slots) - FreedBy(c.store, i) <= ARENA_EVENTS
  }

  /** Where a slot key leads. */
  function AfterSlotKey(c: Core, i: int): State
    requires |c.store.slots| == MAX_SLOTS && IsSlot(i)
  {
    match c.m.state
    case Idle => if c.store.IsEmpty(i) then Idle else Playing
    case PendingAssign => if Assigns(c, i) then Idle else PendingAssign
    case MovePending =>
      if c.m.moveSource < 0 then MovePending
      else if c.m.moveSource == i || c.store.IsEmpty(i) || Overwrites(c, i) then Idle
      else MovePending
    case DeletePending => Idle
    case PreviewPending => Idle
    case _ => Deep(c.m)
  }

  /** Where a command leads once its cues have drained; a command out of place leads nowhere. */
  function Leads(c: Core, cmd: Command, i: int): State
    requires |c.store.slots| == MAX_SLOTS && (cmd == SlotKey ==> IsSlot(i))
  {
    var from := c.m.state;
    match cmd
    case Rec =>
      if from in {Idle, Recording, PendingAssign, PreviewPending} then Recording else Deep(c.m)
    case Stp => if from != Recording then Deep(c.m) else if c.store.draft == [] then Idle else PendingAssign
    case Overflow => if from == Recording then PendingAssign else Deep(c.m)
    case Del => if from == Idle then DeletePending else Deep(c.m)
    case Mov => if from == Idle then MovePending else Deep(c.m)
    case Preview => if from == Idle then PreviewPending else Deep(c.m)
    case SlotKey => AfterSlotKey(c, i)
    case _ => Deep(c.m)
  }

  lemma FinishSettles(c: Core, gate: Gate)
    requires |c.store.slots| == MAX_SLOTS && c.m.state == TypingFeedback && Settled(c.m.returnState)
    ensures Deep(TypingFinished(c, gate).m) == c.m.returnState
  {
  }

  lemma SaySettles(c: Core, returnTo: State, notice: Notice, slot: int, slot2: int, kind: FbKind, gate: Gate)
    requires |c.store.slots| == MAX_SLOTS && Settled(returnTo)
    ensures Deep(Say(c, returnTo, notice, slot, slot2, kind, gate).m) == returnTo
  {
    hide TypingFinished;
    FinishSettles(Announced(c, returnTo, notice, slot, slot2, kind), gate);
  }

  lemma AssignEmptySettles(c: Core, i: int, gate: Gate)
    requires |c.store.slots| == MAX_SLOTS
    ensures Deep(AssignEmpty(c, i, gate).m) == if DraftCommit(c.store, i).1 == Ok then Idle else PendingAssign
  {
    hide Say, Total, Deep;
    var c1 := StoreCommit(c, i).0;
    SaySettles(c1, PendingAssign, ErrorTooLarge, i, -1, FbTooLarge, gate);
    SaySettles(c1, PendingAssign, ErrorSlotOccupied, i, -1, FbSlotFull, gate);
    SaySettles(c1.(m := c1.m.(postSave := i)), Idle, Saved, i, -1, FbSaved, gate);
  }

  /** What the silent delete of an overwrite changes for the commit that follows. */
  lemma ClearedTotal(c: Core, i: int)
    requires |c.store.slots| == MAX_SLOTS && Overwrites(c, i)
    ensures
      var s := StoreDelete(c, i).0.store;
      && |s.slots| == MAX_SLOTS && s.IsEmpty(i) && s.draft == c.store.draft && s.playing == c.store.playing
      && Total(s.slots) == Total(c.store.slots) - FreedBy(c.store, i)
  {
    hide Total;
    var s := StoreDelete(c, i).0.store;
    TotalUpdate(c.store.slots, i, s.slots[i]);
    assert s.slots == c.store.slots[i := s.slots[i]];
  }

  lemma AssignSettles(c: Core, i: int, gate: Gate)
    requires |c.store.slots| == MAX_SLOTS && IsSlot(i)
    ensures Deep(SlotAssign(c, i, gate).m) == if Assigns(c, i) then Idle else PendingAssign
  {
    hide Say, Total, AssignEmpty, StoreDelete, Deep;
    var c0 := c.(armed := false);
    AssignEmptySettles(c0, i, gate);
    SaySettles(c0, PendingAssign, ErrorSlotOccupied, i, -1, FbSlotFull, gate);
    if !c0.store.IsEmpty(i) {
      OverwriteClears(c0, i);
      var c1 := StoreDelete(c0, i).0;
      SaySettles(c1, PendingAssign, ErrorDeleteQueueFull, i, -1, FbDeleteQfull, gate);
      AssignEmptySettles(c1, i, gate);
      if Overwrites(c0, i) {
        ClearedTotal(c0, i);
      }
    }
  }

  lemma DeleteSettles(c: Core, i: int, gate: Gate)
    requires |c.store.slots| == MAX_SLOTS
    ensures Deep(SlotDelete(c, i, gate).m) == Idle
  {
    hide Say, Deep, TypingFinished;
    var c0 := c.(armed := false);
    var c1 := StoreDelete(c0, i).0;
    SaySettles(c0, Idle, ErrorSlotEmpty, i, -1, FbSlotEmpty, gate);
    SaySettles(c1, Idle, ErrorDeleteQueueFull, i, -1, FbDeleteQfull, gate);
    SaySettles(c1, Idle, Deleted, i, -1, FbDeleted, gate);
    FinishSettles(EnterTyping(c1, Idle), gate);
  }

  lemma MoveIntoSettles(c: Core, src: int, dst: int, gate: Gate)
    requires |c.store.slots| == MAX_SLOTS
    ensures Deep(MoveInto(c, src, dst, gate).m) == Idle
  {
    hide Say, Deep;
    var c1 := StoreMove(c.(m := c.m.(moveSource := -1), armed := false), src, dst).0;
    SaySettles(c1, Idle, ErrorTooLarge, dst, -1, FbTooLarge, gate);
    SaySettles(c1, Idle, ErrorSaveQueueFull, dst, -1, FbSaveQfull, gate);
    SaySettles(c1, Idle, ErrorDeleteQueueFull, src, -1, FbDeleteQfull, gate);
    SaySettles(c1, Idle, Moved, dst, src, FbMoved, gate);
  }

  lemma MoveSettles(c: Core, i: int, gate: Gate)
    requires |c.store.slots| == MAX_SLOTS && IsSlot(i) && c.m.state == MovePending
    ensures Deep(SlotMove(c, i, gate).m) == AfterSlotKey(c, i)
  {
    hide Say, Deep, MoveInto, StoreDelete;
    var src, c1 := c.m.moveSource, StoreDelete(c, i).0;
    if !c.store.IsEmpty(i) {
      OverwriteClears(c, i);
      MoveIntoSettles(c1, src, i, gate);
      SaySettles(c1, MovePending, ErrorDeleteQueueFull, i, -1, FbDeleteQfull, gate);
    }
    MoveIntoSettles(c, src, i, gate);
    SaySettles(c, MovePending, ErrorSlotEmpty, i, -1, FbSlotEmpty, gate);
    SaySettles(c.(m := c.m.(moveSource := i)), MovePending, MoveSrcSelected, i, -1, FbMoveSrc, gate);
    SaySettles(c.(m := c.m.(moveSource := -1), armed := false), Idle, MoveCancelled, -1, -1, FbMoveCancel, gate);
    SaySettles(c, MovePending, ErrorSlotOccupied, i, -1, FbSlotFull, gate);
  }

  lemma ChainSettles(c: Core, i: int, gate: Gate)
    requires |c.store.slots| == MAX_SLOTS
    ensures Deep(SlotRecording(c, i, gate).m) == Recording
  {
    hide Say, Deep;
    SaySettles(c, Recording, ErrorSlotEmpty, i, -1, FbChainEmpty, gate);
    SaySettles(c, Recording, ErrorChainFull, i, -1, FbChainNoRoom, gate);
    SaySettles(c.(store := DraftChain(c.store, i).0), Recording, ChainInserted, i, -1, FbChainInsert, gate);
  }

  lemma IdleSlotSettles(c: Core, i: int, gate: Gate)
    requires |c.store.slots| == MAX_SLOTS
    ensures Deep(SlotPreview(c, i, gate).m) == Idle
    ensures Deep(SlotPlay(c, i, gate).m) == if c.store.IsEmpty(i) then Idle else Playing
  {
    hide Say, TypingFinished;
    FinishSettles(Notify(EnterTyping(c.(armed := false), Idle), PreviewReady, i, -1), gate);
    SaySettles(c, Idle, ErrorSlotEmpty, i, -1, FbSlotEmpty, gate);
  }

  lemma SlotSettles(c: Core, i: int, gate: Gate)
    requires |c.store.slots| == MAX_SLOTS && IsSlot(i) && Settled(c.m.state)
    ensures Deep(DoSlot(c, i, gate).m) == AfterSlotKey(c, i)
  {
    hide SlotRecording, SlotAssign, SlotDelete, SlotMove, SlotPreview, SlotPlay, Assigns;
    match c.m.state {
      case Recording => ChainSettles(c, i, gate);
      case PendingAssign => AssignSettles(c, i, gate);
      case DeletePending => DeleteSettles(c, i, gate);
      case MovePending => MoveSettles(c, i, gate);
      case _ => IdleSlotSettles(c, i, gate);
    }
  }

  lemma TakesSettle(c: Core, gate: Gate)
    requires |c.store.slots| == MAX_SLOTS
    ensures Deep(DoRec(c, gate).m) == Recording
    ensures Deep(DoStop(c, gate).m) == if c.store.draft == [] then Idle else PendingAssign
    ensures Deep(DoOverflow(c, gate).m) == PendingAssign
  {
    hide Say, Deep;
    SaySettles(c.(armed := false, store := DraftReset(c.store)), Recording, RecordingStarted, -1, -1, FbRec, gate);
    SaySettles(c, Idle, ErrorNoRecording, -1, -1, FbNoRec, gate);
    SaySettles(c, PendingAssign, RecordingStopped, -1, -1, FbStop, gate);
    SaySettles(c, PendingAssign, ErrorOverflow, -1, -1, FbOverflow, gate);
  }

  lemma ModesSettle(c: Core, gate: Gate, knobs: seq<Op>)
    requires |c.store.slots| == MAX_SLOTS
    ensures Deep(DoMoveMode(c, gate).m) == MovePending
    ensures Deep(DoStatus(c, gate).m) == Idle && Deep(DoKnob(c, gate, knobs).m) == Idle
  {
    hide Say, TypingFinished;
    SaySettles(c.(m := c.m.(moveSource := -1)), MovePending, MovePrompt, -1, -1, FbMovePrompt, gate);
    FinishSettles(Voice(EnterTyping(c, Idle), FbStatusHeader, -1, -1), gate);
    var c1 := Notify(EnterTyping(c, Idle), SettingsChanged, -1, -1);
    FinishSettles(Voice(c1.(queue := WithKnobs(c1.queue, knobs)), FbKnob, -1, -1), gate);
  }

  /**
   * In every reachable state every command leads where the diagram says, whatever its cues do: which
   * commands a state accepts, which mode each of them settles in, and on what that depends.
   */
  lemma CommandsFollowDiagram(w: World, cmd: Command, i: int, gate: Gate, knobs: seq<Op>)
    requires Inv(w) && Enabled(w, Press(cmd, i, gate, knobs))
    ensures |w.core.store.slots| == MAX_SLOTS
    ensures Deep(Next(w, Press(cmd, i, gate, knobs)).core.m) == Leads(w.core, cmd, i)
  {
    hide Body, DoSlot, DoRec, DoStop, DoOverflow, DoMoveMode, DoStatus, DoKnob, Assigns, AfterSlotKey;
    assert |w.core.store.slots| == MAX_SLOTS by { BodySlots(w); }
    TakesSettle(w.core, gate);
    ModesSettle(w.core, gate, knobs);
    if cmd == SlotKey {
      if Settled(w.core.m.state) {
        SlotSettles(w.core, i, gate);
      } else {
        DeafToSlots(w.core, i);
      }
    }
  }

  lemma DeafToSlots(c: Core, i: int)
    requires |c.store.slots| == MAX_SLOTS && IsSlot(i) && !Settled(c.m.state)
    ensures AfterSlotKey(c, i) == Deep(c.m)
  {
  }

  lemma BodySlots(w: World)
    requires Inv(w)
    ensures |w.core.store.slots| == MAX_SLOTS
  {
  }

  /** A knob press in IDLE saves its value behind what is queued, or nowhere when the queue is full. */
  lemma KnobIsSaved(w: World, cmd: Command, gate: Gate, op: Op)
    requires Inv(w) && w.core.m.state == Idle && cmd in {FeedbackInc, FeedbackDec, StyleToggle, EraseToggle}
    requires Enabled(w, Press(cmd, -1, gate, [op]))
    ensures
      var w' := Next(w, Press(cmd, -1, gate, [op]));
      && w'.core.queue == w.core.queue + (if |w.core.queue| < QUEUE_LEN then [op] else [])
      && w'.core.store == w.core.store && w'.flash == w.flash && w'.completions == w.completions
  {
    hide Agrees, Recoverable, Stamped, Total, LeavingHolds;
  }

  // ---- a take is kept -----------------------------------------------------------------------------------

  /** STOP with every message silent. */
  lemma StopSilent(c: Core)
    requires |c.store.slots| == MAX_SLOTS && c.m.state == Recording && c.store.draft != [] && c.m.postSave == -1
    ensures
      var c' := Dispatch(c, Stp, 0, {}, []);
      && c'.store == c.store && c'.queue == c.queue && c'.lost == c.lost
      && c'.m.state == PendingAssign && c'.m.postSave == -1
      && c'.notes == c.notes + [Note(RecordingStopped, -1, -1, PendingAssign)]
  {
  }

  /** The key of a free slot in which the draft fits, with every message silent. */
  lemma SaveSilent(c: Core, i: int)
    requires c.store.Valid() && IsSlot(i) && c.m.state == PendingAssign && c.m.postSave == -1
    requires c.store.draft != [] && c.store.IsEmpty(i) && DraftCommit(c.store, i).1 == Ok
    ensures
      var c' := Dispatch(c, SlotKey, i, {}, []);
      && c'.store == DraftCommit(c.store, i).0 && c'.m.state == Idle
      && c.notes + [Note(Saved, i, -1, Idle)] <= c'.notes
      && (IsNvs(i) && |c.queue| < QUEUE_LEN ==>
            c'.queue == c.queue + [Save(i, c.store.draft, c.store.slots[i].gen + 1)] && i !in c'.lost)
  {
    hide Total;
  }

  lemma AnyArguments(c: Core, i: int, gate: Gate, knobs: seq<Op>)
    requires |c.store.slots| == MAX_SLOTS
    ensures Dispatch(c, Stp, i, gate, knobs) == Dispatch(c, Stp, 0, gate, [])
    ensures Dispatch(c, SlotKey, i, gate, knobs) == Dispatch(c, SlotKey, i, gate, [])
  {
  }

  predicate IsPress(input: Input, cmd: Command) {
    && input.step.Press? && input.step.cmd == cmd
    && forall k :: 0 <= k < |input.step.knobs| ==> input.step.knobs[k].SaveKnobs?
  }

  lemma TwoInputs(w: World, a: Input, b: Input)
    requires Inv(w) && w.core.m.state != TypingFeedback && Offered(w, a.step)
    requires Offered(Next(w, Quiet(a.step)), b.step)
    ensures Drainable(w, [a, b]) && QuietSteps([a, b]) == [Quiet(a.step), Quiet(b.step)]
    ensures Enabled(w, Quiet(a.step)) && Enabled(Next(w, Quiet(a.step)), Quiet(b.step))
  {
    hide Inv, Next, Cooled, Enabled;
    InputLevels(w, a);
    InputLevels(Next(w, Quiet(a.step)), b);
    assert [a, b][1..] == [b] && [b][1..] == [];
    assert QuietSteps([b]) == [Quiet(b.step)];
    var w1 := Next(w, Quiet(a.step));
    assert Drainable(Next(w1, Quiet(b.step)), []);
    assert Drainable(w1, [b]);
  }

  /** The two presses with every message silent. */
  lemma QuietTake(w: World, i: int, stop: Input, save: Input)
    requires Inv(w) && w.core.m.state == Recording && w.core.store.draft != []
    requires IsPress(stop, Stp) && IsPress(save, SlotKey) && save.step.slot == i && IsSlot(i)
    requires |w.core.store.slots| == MAX_SLOTS && w.core.store.IsEmpty(i)
    requires IsNvs(i) ==> |w.core.store.draft| <= MAX_EVENTS_NVS
    requires |w.core.store.draft| + Total(w.core.store.slots) <= ARENA_EVENTS
    ensures Offered(w, stop.step) && Enabled(w, Quiet(stop.step)) && DraftCommit(w.core.store, i).1 == Ok
    ensures
      var w1 := Next(w, Quiet(stop.step));
      && |w1.core.store.slots| == MAX_SLOTS && Offered(w1, save.step) && Enabled(w1, Quiet(save.step))
      && var c, r := w.core, Next(w1, Quiet(save.step)).core;
         && r.store == DraftCommit(c.store, i).0 && r.m.state == Idle
         && c.notes + [Note(RecordingStopped, -1, -1, PendingAssign), Note(Saved, i, -1, Idle)] <= r.notes
         && (IsNvs(i) && |c.queue| < QUEUE_LEN ==>
               r.queue == c.queue + [Save(i, c.store.draft, c.store.slots[i].gen + 1)] && i !in r.lost)
  {
    hide Total, Dispatch, Inv;
    assert w.core.store.playing == -1 && w.core.m.postSave == -1 && w.core.store.Valid() by { TakeFacts(w); }
    StopSilent(w.core);
    AnyArguments(w.core, stop.step.slot, {}, stop.step.knobs);
    var w1 := Next(w, Quiet(stop.step));
    SaveSilent(w1.core, i);
    AnyArguments(w1.core, i, {}, save.step.knobs);
  }

  lemma TakeFacts(w: World)
    requires Inv(w) && w.core.m.state == Recording
    ensures w.core.store.playing == -1 && w.core.m.postSave == -1 && w.core.store.Valid()
  {
    hide Agrees, Recoverable, Stamped, Total, LeavingHolds;
  }

  /**
   * A take that is stopped can be saved: from a recording that holds anything, STOP and the key of a free
   * slot in which it fits, each cue drained, leave the slot showing exactly the take, announce SAVED and
   * return to IDLE, at any feedback level; and the save of a flash slot is on its way when the queue has
   * room.
   */
  lemma TakeIsSaved(w: World, i: int, stop: Input, save: Input)
    requires Inv(w) && w.core.m.state == Recording && w.core.store.draft != []
    requires IsPress(stop, Stp) && IsPress(save, SlotKey) && save.step.slot == i && IsSlot(i)
    requires |w.core.store.slots| == MAX_SLOTS && w.core.store.IsEmpty(i)
    requires IsNvs(i) ==> |w.core.store.draft| <= MAX_EVENTS_NVS
    requires |w.core.store.draft| + Total(w.core.store.slots) <= ARENA_EVENTS
    ensures Drainable(w, [stop, save]) && Legal(w, LoudSteps(w, [stop, save]))
    ensures
      var c, r := w.core, RunTo(w, LoudSteps(w, [stop, save])).core;
      && |r.store.slots| == MAX_SLOTS && r.store.View(i) == c.store.draft
      && (forall j :: j != i ==> r.store.View(j) == c.store.View(j))
      && r.m.state == Idle && c.notes <= r.notes && Note(Saved, i, -1, Idle) in r.notes[|c.notes|..]
      && (IsNvs(i) && |c.queue| < QUEUE_LEN ==>
            r.queue == c.queue + [Save(i, c.store.draft, c.store.slots[i].gen + 1)] && i !in r.lost)
  {
    hide Total, Inv, Next, Enabled, LoudSteps, Legal, RunTo, IsPress, DraftCommit, Offered, Drainable;
    QuietTake(w, i, stop, save);
    TwoInputs(w, stop, save);
    FeedbackLevelIsInvisible(w, [stop, save]);
    QuietPair(w, Quiet(stop.step), Quiet(save.step));
    var r := Next(Next(w, Quiet(stop.step)), Quiet(save.step)).core;
    assert r.notes[|w.core.notes| + 1] == Note(Saved, i, -1, Idle);
    assert r.notes[|w.core.notes|..][1] == Note(Saved, i, -1, Idle);
    Committed(w.core.store, i);
  }

  lemma Committed(s: Store, i: int)
    requires |s.slots| == MAX_SLOTS && IsSlot(i) && s.IsEmpty(i) && DraftCommit(s, i).1 == Ok && s.draft != []
    ensures
      var s' := DraftCommit(s, i).0;
      |s'.slots| == MAX_SLOTS && s'.View(i) == s.draft && forall j :: j != i ==> s'.View(j) == s.View(j)
  {
    hide Total;
  }

  lemma QuietPair(w: World, a: Step, b: Step)
    requires |w.core.store.slots| == MAX_SLOTS && Enabled(w, a)
    requires |Next(w, a).core.store.slots| == MAX_SLOTS && Enabled(Next(w, a), b)
    ensures Legal(w, [a, b]) && RunTo(w, [a, b]) == Next(Next(w, a), b)
  {
    hide Next, Enabled;
    var w2 := Next(Next(w, a), b);
    assert Legal(w2, []) && RunTo(w2, []) == w2;
    assert [b] == [b] + [] && [a, b] == [a] + [b];
    RunOne(Next(w, a), b, []);
    RunOne(w, a, [b]);
  }
}
