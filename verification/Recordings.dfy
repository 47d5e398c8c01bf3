/**
 * The listener and the composed firmware together: every run of key events, delay keys, bindings and
 * background steps, and what it lets into the draft and the slots.
 */
module Recordings {
  import opened Config
  import opened StoreSpec
  import opened Render
  import opened MachineSpec
  import opened System
  import opened SystemTheorems
  import opened SystemModes
  import opened Recorder

  datatype Desk = Desk(world: World, pending: seq<Pending>)

  datatype Act =
    | Keycode(e: Event, report: bv8, gate: Gate)  // a key event reaches the listener
    | DelayPress(ms: U16, gate: Gate)             // the delay binding
    | Other(step: Step)                           // any other step of the firmware

  /** Recording is the listener's and the delay binding's own; everything else is a firmware step. */
  predicate Able(d: Desk, a: Act) {
    match a
    case Other(st) => !st.Key? && Enabled(d.world, st)
    case _ => true
  }

  /** The take in progress, as the listener sees it. */
  function AsTake(d: Desk): Take { Take(d.world.core, d.pending) }

  function WithTake(d: Desk, t: Take): Desk { Desk(d.world.(core := t.core), t.pending) }

  /** Every press of the record binding forgets the deferred presses, accepted or not. */
  function PendingAfter(d: Desk, st: Step): seq<Pending> {
    if st.Press? && st.cmd == Rec then NoPending() else d.pending
  }

  function Go(d: Desk, a: Act): Desk
    requires |d.world.core.store.slots| == MAX_SLOTS && Able(d, a)
  {
    match a
    case Keycode(e, report, gate) => WithTake(d, Hear(AsTake(d), e, report, gate))
    case DelayPress(ms, gate) =>
      if d.world.core.m.state != Recording then d
      else WithTake(d, Record(AsTake(d), MakeDelay(ms), gate))
    case Other(st) => Desk(Next(d.world, st), PendingAfter(d, st))
  }

  // ---- every act is a run of the firmware --------------------------------------------------------

  /** A lone tap that is being released, when its press is still deferred. */
  predicate LoneTap(d: Desk, e: Event) {
    var i := Recorder.EntryOf(d.pending, e.keycode);
    IsModifierKey(e) && e.pressed == 0 && i < |d.pending| && !d.pending[i].bracketed
  }

  function DeferredPress(d: Desk, e: Event): Event
    requires LoneTap(d, e)
  {
    d.pending[Recorder.EntryOf(d.pending, e.keycode)].press
  }

  /** The events one key adds to the draft: none, itself, or a deferred press and its release. */
  function Recorded(d: Desk, e: Event, report: bv8): seq<Event> {
    if d.world.core.m.state != Recording then []
    else if !IsModifierKey(e) then [Effective(e, report)]
    else if !LoneTap(d, e) then []
    else if |d.world.core.store.draft| >= MAX_EVENTS then [DeferredPress(d, e)]
    else [DeferredPress(d, e), Effective(e, report)]
  }

  function KeySteps(events: seq<Event>, gate: Gate): seq<Step> {
    seq(|events|, k requires 0 <= k < |events| => Key(events[k], gate))
  }

  function Steps(d: Desk, a: Act): seq<Step> {
    match a
    case Keycode(e, report, gate) => KeySteps(Recorded(d, e, report), gate)
    case DelayPress(ms, gate) => if d.world.core.m.state != Recording then [] else [Key(MakeDelay(ms), gate)]
    case Other(st) => [st]
  }

  lemma RunOneStep(w: World, st: Step)
    requires |w.core.store.slots| == MAX_SLOTS && Enabled(w, st)
    ensures Legal(w, [st]) && RunTo(w, [st]) == Next(w, st)
  {
    hide Next;
    assert [st][1..] == [];
  }

  lemma RunTwoSteps(w: World, st: Step, more: Step)
    requires |w.core.store.slots| == MAX_SLOTS && Enabled(w, st)
    requires |Next(w, st).core.store.slots| == MAX_SLOTS && Enabled(Next(w, st), more)
    ensures Legal(w, [st, more]) && RunTo(w, [st, more]) == Next(Next(w, st), more)
  {
    hide Next;
    RunOneStep(Next(w, st), more);
    assert [st, more][1..] == [more];
  }

  lemma HeardIsSteps(d: Desk, e: Event, report: bv8, gate: Gate)
    requires |d.world.core.store.slots| == MAX_SLOTS
    ensures
      var steps := KeySteps(Recorded(d, e, report), gate);
      Legal(d.world, steps) && RunTo(d.world, steps) == d.world.(core := Hear(AsTake(d), e, report, gate).core)
  {
    hide RecordEvent, Legal, RunTo, MarkBracketed, Defer, Recorder.EntryOf;
    var events, steps := Recorded(d, e, report), KeySteps(Recorded(d, e, report), gate);
    if events == [] {
      assert steps == [];
      NoSteps(d.world);
    } else if |events| == 1 {
      assert steps == [Key(events[0], gate)];
      RunOneStep(d.world, Key(events[0], gate));
    } else {
      assert steps == [Key(events[0], gate), Key(events[1], gate)];
      RecordAppends(Take(d.world.core, d.pending), events[0], gate);
      RunTwoSteps(d.world, Key(events[0], gate), Key(events[1], gate));
    }
  }

  lemma NoSteps(w: World)
    ensures Legal(w, []) && RunTo(w, []) == w
  {
  }

  /** What an act does to the firmware is a run of its steps. */
  lemma ActsAreSteps(d: Desk, a: Act)
    requires |d.world.core.store.slots| == MAX_SLOTS && Able(d, a)
    ensures Legal(d.world, Steps(d, a)) && RunTo(d.world, Steps(d, a)) == Go(d, a).world
  {
    hide Next, RecordEvent, Legal, RunTo, Hear, Recorded;
    match a {
      case Keycode(e, report, gate) => HeardIsSteps(d, e, report, gate);
      case DelayPress(ms, gate) =>
        NoSteps(d.world);
        if d.world.core.m.state == Recording {
          DelayIsStep(d.world, ms, gate);
        }
      case Other(st) => RunOneStep(d.world, st);
    }
  }

  lemma DelayIsStep(w: World, ms: U16, gate: Gate)
    requires |w.core.store.slots| == MAX_SLOTS && w.core.m.state == Recording
    ensures
      var steps := [Key(MakeDelay(ms), gate)];
      Legal(w, steps) && RunTo(w, steps) == w.(core := RecordEvent(w.core, MakeDelay(ms), gate))
  {
    hide RecordEvent, Legal, RunTo;
    RunOneStep(w, Key(MakeDelay(ms), gate));
  }

  // ---- no modifier is left held ---------------------------------------------------------------------

  /** No macro in RAM, the draft included, holds a modifier down. */
  ghost predicate Clean(s: Store) {
    |s.slots| == MAX_SLOTS && Paired(s.draft) && forall i :: IsSlot(i) ==> Paired(s.slots[i].events)
  }

  ghost predicate Tidy(d: Desk) { Clean(d.world.core.store) && Deferred(d.pending) }

  /** A lone tap is released with room for one event only: its press is recorded, its release is not. */
  predicate StrandsModifier(d: Desk, a: Act) {
    && a.Keycode? && d.world.core.m.state == Recording && LoneTap(d, a.e)
    && |d.world.core.store.draft| == MAX_EVENTS - 1
  }

  lemma WithClean(s: Store, i: int, slot: Slot)
    requires Clean(s) && IsSlot(i) && Paired(slot.events)
    ensures Clean(s.With(i, slot))
  {
    hide Paired;
  }

  lemma StoreOpsClean(c: Core, i: int, j: int)
    requires Clean(c.store)
    ensures Clean(StoreDelete(c, i).0.store) && Clean(StoreCommit(c, i).0.store)
    ensures Clean(DraftChain(c.store, i).0)
    ensures Clean(StoreMove(c, i, j).0.store)
  {
    hide Paired;
    NothingIsPaired();
    if IsSlot(i) {
      PairedJoin(c.store.draft, c.store.slots[i].events);
    }
    MoveClean(c, i, j);
  }

  lemma MoveClean(c: Core, src: int, dst: int)
    requires Clean(c.store)
    ensures Clean(StoreMove(c, src, dst).0.store)
  {
    hide Paired, Clean;
    var s := c.store;
    assert |s.slots| == MAX_SLOTS by { SlotsOfClean(s, src); }
    if IsSlot(src) && IsSlot(dst) {
      NothingIsPaired();
      SlotsOfClean(s, src);
      WithClean(s, dst, Slot([], false, s.slots[dst].gen + 2));
      var s1 := s.With(dst, Slot(s.slots[src].events, false, s.slots[dst].gen + 1));
      WithClean(s, dst, Slot(s.slots[src].events, false, s.slots[dst].gen + 1));
      WithClean(s1, src, Slot([], false, s.slots[src].gen + 1));
    }
  }

  lemma SlotsOfClean(s: Store, i: int)
    requires Clean(s)
    ensures |s.slots| == MAX_SLOTS && (IsSlot(i) ==> Paired(s.slots[i].events))
  {
  }

  lemma SaySameStore(c: Core, returnTo: State, notice: Notice, slot: int, slot2: int, kind: FbKind, gate: Gate)
    requires |c.store.slots| == MAX_SLOTS
    ensures Say(c, returnTo, notice, slot, slot2, kind, gate).store == c.store
  {
  }

  lemma DeleteOfClean(c: Core, i: int)
    requires Clean(c.store)
    ensures Clean(StoreDelete(c, i).0.store) && |StoreDelete(c, i).0.store.slots| == MAX_SLOTS
  {
    StoreOpsClean(c, i, i);
  }

  lemma CommitOfClean(c: Core, i: int, gate: Gate)
    requires Clean(c.store)
    ensures Clean(AssignEmpty(c, i, gate).store)
  {
    hide Clean, Say, Total;
    SlotsOfClean(c.store, i);
    StoreOpsClean(c, i, i);
    var c1 := StoreCommit(c, i).0;
    SlotsOfClean(c1.store, i);
    SaySameStore(c1, PendingAssign, ErrorTooLarge, i, -1, FbTooLarge, gate);
    SaySameStore(c1, PendingAssign, ErrorSlotOccupied, i, -1, FbSlotFull, gate);
    SaySameStore(c1.(m := c1.m.(postSave := i)), Idle, Saved, i, -1, FbSaved, gate);
  }

  lemma AssignClean(c: Core, i: int, gate: Gate)
    requires Clean(c.store)
    ensures Clean(SlotAssign(c, i, gate).store)
  {
    hide Clean, Say, AssignEmpty, StoreDelete;
    SlotsOfClean(c.store, i);
    var c0 := c.(armed := false);
    DeleteOfClean(c0, i);
    var c1 := StoreDelete(c0, i).0;
    CommitOfClean(c0, i, gate);
    CommitOfClean(c1, i, gate);
    SaySameStore(c0, PendingAssign, ErrorSlotOccupied, i, -1, FbSlotFull, gate);
    SaySameStore(c1, PendingAssign, ErrorDeleteQueueFull, i, -1, FbDeleteQfull, gate);
  }

  lemma DeleteClean(c: Core, i: int, gate: Gate)
    requires Clean(c.store)
    ensures Clean(SlotDelete(c, i, gate).store)
  {
    hide Clean, Say, StoreDelete;
    SlotsOfClean(c.store, i);
    var c0 := c.(armed := false);
    DeleteOfClean(c0, i);
    var c1 := StoreDelete(c0, i).0;
    SaySameStore(c0, Idle, ErrorSlotEmpty, i, -1, FbSlotEmpty, gate);
    SaySameStore(c1, Idle, ErrorDeleteQueueFull, i, -1, FbDeleteQfull, gate);
    SaySameStore(c1, Idle, Deleted, i, -1, FbDeleted, gate);
  }

  lemma MoveIntoClean(c: Core, src: int, dst: int, gate: Gate)
    requires Clean(c.store)
    ensures Clean(MoveInto(c, src, dst, gate).store)
  {
    hide Clean, Say, StoreMove;
    SlotsOfClean(c.store, src);
    var c0 := c.(m := c.m.(moveSource := -1), armed := false);
    MoveClean(c0, src, dst);
    var c1 := StoreMove(c0, src, dst).0;
    SlotsOfClean(c1.store, src);
    SaySameStore(c1, Idle, ErrorTooLarge, dst, -1, FbTooLarge, gate);
    SaySameStore(c1, Idle, ErrorSaveQueueFull, dst, -1, FbSaveQfull, gate);
    SaySameStore(c1, Idle, ErrorDeleteQueueFull, src, -1, FbDeleteQfull, gate);
    SaySameStore(c1, Idle, Moved, dst, src, FbMoved, gate);
  }

  lemma MoveKeyClean(c: Core, i: int, gate: Gate)
    requires Clean(c.store)
    ensures Clean(SlotMove(c, i, gate).store)
  {
    hide Clean, Say, StoreDelete, MoveInto;
    var src := c.m.moveSource;
    SlotsOfClean(c.store, i);
    DeleteOfClean(c, i);
    var c1 := StoreDelete(c, i).0;
    MoveIntoClean(c, src, i, gate);
    MoveIntoClean(c1, src, i, gate);
    SaySameStore(c, MovePending, ErrorSlotEmpty, i, -1, FbSlotEmpty, gate);
    SaySameStore(c.(m := c.m.(moveSource := i)), MovePending, MoveSrcSelected, i, -1, FbMoveSrc, gate);
    SaySameStore(c.(m := c.m.(moveSource := -1), armed := false), Idle, MoveCancelled, -1, -1, FbMoveCancel, gate);
    SaySameStore(c, MovePending, ErrorSlotOccupied, i, -1, FbSlotFull, gate);
    SaySameStore(c1, MovePending, ErrorDeleteQueueFull, i, -1, FbDeleteQfull, gate);
  }

  lemma ChainClean(c: Core, i: int, gate: Gate)
    requires Clean(c.store)
    ensures Clean(SlotRecording(c, i, gate).store)
  {
    hide Clean, Say;
    SlotsOfClean(c.store, i);
    StoreOpsClean(c, i, i);
    var s := DraftChain(c.store, i).0;
    SaySameStore(c, Recording, ErrorSlotEmpty, i, -1, FbChainEmpty, gate);
    SaySameStore(c, Recording, ErrorChainFull, i, -1, FbChainNoRoom, gate);
    SaySameStore(c.(store := s), Recording, ChainInserted, i, -1, FbChainInsert, gate);
  }

  lemma OthersClean(c: Core, i: int, gate: Gate, knobs: seq<Op>)
    requires Clean(c.store)
    ensures Clean(SlotPreview(c, i, gate).store) && Clean(SlotPlay(c, i, gate).store)
    ensures Clean(DoRec(c, gate).store) && Clean(DoStop(c, gate).store) && Clean(DoOverflow(c, gate).store)
    ensures Clean(DoMoveMode(c, gate).store) && Clean(DoStatus(c, gate).store)
    ensures Clean(DoKnob(c, gate, knobs).store)
  {
    hide Paired;
    NothingIsPaired();
  }

  lemma SlotClean(c: Core, i: int, gate: Gate)
    requires Clean(c.store)
    ensures |c.store.slots| == MAX_SLOTS && Clean(DoSlot(c, i, gate).store)
  {
    hide Clean, SlotRecording, SlotAssign, SlotDelete, SlotMove, SlotPreview, SlotPlay;
    SlotsOfClean(c.store, i);
    OthersClean(c, i, gate, []);
    match c.m.state {
      case Recording => ChainClean(c, i, gate);
      case PendingAssign => AssignClean(c, i, gate);
      case DeletePending => DeleteClean(c, i, gate);
      case MovePending => MoveKeyClean(c, i, gate);
      case _ =>
    }
  }

  lemma DispatchClean(c: Core, cmd: Command, i: int, gate: Gate, knobs: seq<Op>)
    requires Clean(c.store)
    ensures |c.store.slots| == MAX_SLOTS && Clean(Dispatch(c, cmd, i, gate, knobs).store)
  {
    hide Clean, DoSlot, DoRec, DoStop, DoOverflow, DoMoveMode, DoStatus, DoKnob;
    SlotsOfClean(c.store, i);
    OthersClean(c, i, gate, knobs);
    SlotClean(c, i, gate);
  }

  lemma DeliverClean(w: World, gate: Gate)
    requires Clean(w.core.store) && w.completions != []
    ensures Clean(DeliverStep(w, gate).core.store)
  {
    hide Paired, Say;
    NothingIsPaired();
    match w.completions[0] {
      case DeleteDone(i, gen, ok) =>
        var (s, rc) := CompleteDelete(w.core.store, i, gen, ok);
        AsyncSameStore(Healed(w.core.(store := s), rc, i), rc, i, gate);
      case SaveFailedOn(i) => AsyncSameStore(w.core, SaveFailed, i, gate);
    }
  }

  lemma AsyncSameStore(c: Core, rc: DmResult, i: int, gate: Gate)
    requires |c.store.slots| == MAX_SLOTS
    ensures DeliverAsync(c, rc, i, gate).store == c.store
  {
  }

  /** Every firmware step but the recording of an event keeps the macros clean. */
  lemma StepClean(w: World, st: Step)
    requires Clean(w.core.store) && Enabled(w, st) && !st.Key?
    ensures |w.core.store.slots| == MAX_SLOTS && Clean(Next(w, st).core.store)
  {
    hide Paired, Dispatch, DeliverStep;
    match st {
      case Press(cmd, i, gate, knobs) => DispatchClean(w.core, cmd, i, gate, knobs);
      case Deliver(gate) => DeliverClean(w, gate);
      case _ =>
    }
  }

  lemma RecordSlots(t: Take, e: Event, gate: Gate)
    requires |t.core.store.slots| == MAX_SLOTS
    ensures
      var t' := Record(t, e, gate);
      t'.core.store.slots == t.core.store.slots && t'.pending == t.pending
  {
    hide Dispatch;
    OverflowSameStore(t.core, gate);
  }

  lemma OverflowSameStore(c: Core, gate: Gate)
    requires |c.store.slots| == MAX_SLOTS
    ensures Dispatch(c, Overflow, 0, gate, []).store == c.store
  {
  }

  lemma ReleaseSlots(t: Take, release: Event, gate: Gate)
    requires Orderly(t)
    ensures
      var t' := Release(t, release, gate);
      t'.core.store.slots == t.core.store.slots && Deferred(t'.pending)
  {
    hide Record, Recorder.EntryOf, Paired;
    var i := Recorder.EntryOf(t.pending, release.keycode);
    if i < |t.pending| {
      var p := t.pending[i];
      var freed := t.(pending := t.pending[i := p.(keycode := 0)]);
      RecordSlots(freed, p.press, gate);
      RecordSlots(Record(freed, p.press, gate), release, gate);
    }
  }

  /** One recorded event keeps the draft paired, or ends the take with the draft as it was. */
  lemma KeyTidies(t: Take, e: Event, gate: Gate)
    requires Orderly(t) && t.core.m.state == Recording && !IsModifierKey(e)
    ensures Orderly(Record(t, e, gate))
  {
    hide RecordEvent, Paired, Keys;
    RecordAppends(t, e, gate);
    AppendKey(t.core.store.draft, e);
  }

  lemma HearTidies(t: Take, e: Event, report: bv8, gate: Gate)
    requires Orderly(t) && t.core.m.state == Recording
    ensures
      var t' := Hear(t, e, report, gate);
      && t'.core.store.slots == t.core.store.slots && Deferred(t'.pending)
      && (Paired(t'.core.store.draft) <==>
            !(IsModifierKey(e) && e.pressed == 0
              && var i := Recorder.EntryOf(t.pending, e.keycode);
                 i < |t.pending| && !t.pending[i].bracketed && |t.core.store.draft| == MAX_EVENTS - 1))
  {
    hide Record, Release, Recorder.EntryOf, Paired;
    var rec := Effective(e, report);
    if !IsModifierKey(e) {
      var marked := t.(pending := MarkBracketed(t.pending));
      KeyTidies(marked, rec, gate);
      RecordSlots(marked, rec, gate);
    } else if e.pressed == 0 {
      ReleaseSlots(t, rec, gate);
      OverflowLeavesModifierHeld(t, rec, gate);
    }
  }

  lemma KeycodeTidies(d: Desk, a: Act)
    requires Tidy(d) && Able(d, a) && a.Keycode?
    ensures Tidy(Go(d, a)) <==> !StrandsModifier(d, a)
  {
    hide Hear, Paired, Recorder.EntryOf, Deferred;
    var t := AsTake(d);
    if d.world.core.m.state == Recording {
      HearTidies(t, a.e, a.report, a.gate);
    } else {
      DeafElsewhere(t, a.e, a.report, a.gate);
    }
  }

  lemma DeafElsewhere(t: Take, e: Event, report: bv8, gate: Gate)
    requires |t.core.store.slots| == MAX_SLOTS && t.core.m.state != Recording
    ensures Hear(t, e, report, gate) == t
  {
  }

  /**
   * One step keeps every modifier in the draft and in the slots released exactly when it is not the
   * release of a lone tap with room for a single event.
   */
  lemma TidyUnlessStranded(d: Desk, a: Act)
    requires Tidy(d) && Able(d, a)
    ensures |d.world.core.store.slots| == MAX_SLOTS
    ensures Tidy(Go(d, a)) <==> !StrandsModifier(d, a)
  {
    hide Hear, Paired, Recorder.EntryOf, Next, Record;
    match a {
      case Keycode(_, _, _) => KeycodeTidies(d, a);
      case DelayPress(ms, gate) =>
        if d.world.core.m.state == Recording {
          KeyTidies(AsTake(d), MakeDelay(ms), gate);
          RecordSlots(AsTake(d), MakeDelay(ms), gate);
        }
      case Other(st) => StepClean(d.world, st);
    }
  }

  // ---- whole runs -------------------------------------------------------------------------------------

  /** The acts can be taken one after the other. */
  ghost predicate Possible(d: Desk, acts: seq<Act>)
    decreases |acts|
  {
    acts == [] ||
    (|d.world.core.store.slots| == MAX_SLOTS && Able(d, acts[0]) && Possible(Go(d, acts[0]), acts[1..]))
  }

  ghost function RunActs(d: Desk, acts: seq<Act>): Desk
    requires Possible(d, acts)
    decreases |acts|
  {
    if acts == [] then d else RunActs(Go(d, acts[0]), acts[1..])
  }

  ghost function AllSteps(d: Desk, acts: seq<Act>): seq<Step>
    requires Possible(d, acts)
    decreases |acts|
  {
    if acts == [] then [] else Steps(d, acts[0]) + AllSteps(Go(d, acts[0]), acts[1..])
  }

  /** What any run of acts does to the firmware is a run of its steps: every theorem about runs applies. */
  lemma {:induction false} ActsAreRuns(d: Desk, acts: seq<Act>)
    requires Possible(d, acts)
    ensures Legal(d.world, AllSteps(d, acts)) && RunTo(d.world, AllSteps(d, acts)) == RunActs(d, acts).world
    decreases |acts|
  {
    hide Go, Steps, Legal, RunTo, Able;
    NoSteps(d.world);
    if acts != [] {
      ActsAreSteps(d, acts[0]);
      ActsAreRuns(Go(d, acts[0]), acts[1..]);
      RunAppend(d.world, Steps(d, acts[0]), AllSteps(Go(d, acts[0]), acts[1..]));
    }
  }

  /** No act of the run releases a lone tap with room for a single event. */
  ghost predicate NeverStrands(d: Desk, acts: seq<Act>)
    requires Possible(d, acts)
    decreases |acts|
  {
    acts == [] || (!StrandsModifier(d, acts[0]) && NeverStrands(Go(d, acts[0]), acts[1..]))
  }

  /**
   * From a boot whose flash held no macro with a held modifier, over any run of keys, bindings and
   * background steps in which no tap is cut in half: the draft and every slot stay free of one.
   */
  lemma {:induction false} MacrosStayTidy(d: Desk, acts: seq<Act>)
    requires Tidy(d) && Possible(d, acts) && NeverStrands(d, acts)
    ensures Tidy(RunActs(d, acts))
    decreases |acts|
  {
    hide Go, Tidy, StrandsModifier, Able;
    if acts != [] {
      TidyUnlessStranded(d, acts[0]);
      MacrosStayTidy(Go(d, acts[0]), acts[1..]);
    }
  }

  // ---- what a cut tap leads to ------------------------------------------------------------------------

  function PressSlot(i: int): Act { Other(Press(SlotKey, i, {}, [])) }

  function PressRec(): Act { Other(Press(Rec, 0, {}, [])) }

  lemma OverflowSilent(c: Core)
    requires |c.store.slots| == MAX_SLOTS && c.m.state == Recording
    ensures
      var c' := Dispatch(c, Overflow, 0, {}, []);
      c'.store == c.store && c'.m.state == PendingAssign
  {
  }

  /** The cut tap: its press is in the draft, and the take is over. */
  lemma CutTap(d: Desk, e: Event, report: bv8)
    requires Tidy(d) && StrandsModifier(d, Keycode(e, report, {}))
    ensures
      var s, c' := d.world.core.store, Go(d, Keycode(e, report, {})).world.core;
      && c'.store == s.(draft := c'.store.draft) && c'.m.state == PendingAssign
      && |c'.store.draft| == MAX_EVENTS && !Paired(c'.store.draft)
  {
    hide Dispatch, Paired, Recorder.EntryOf;
    var t, rec := AsTake(d), Effective(e, report);
    HearTidies(t, e, report, {});
    var i := Recorder.EntryOf(d.pending, e.keycode);
    var freed := t.(pending := t.pending[i := t.pending[i].(keycode := 0)]);
    RecordAppends(freed, t.pending[i].press, {});
    OverflowSilent(Record(freed, t.pending[i].press, {}).core);
  }

  lemma AssignSilent(c: Core, i: int)
    requires |c.store.slots| == MAX_SLOTS && c.m.state == PendingAssign && c.store.IsEmpty(i)
    requires DraftCommit(c.store, i).1 == Ok
    ensures
      var c' := Dispatch(c, SlotKey, i, {}, []);
      c'.store == DraftCommit(c.store, i).0 && c'.m.state == Idle
  {
    hide Total;
  }

  lemma RecSilent(c: Core)
    requires |c.store.slots| == MAX_SLOTS && c.m.state == Idle
    ensures
      var c' := Dispatch(c, Rec, 0, {}, []);
      c'.store == DraftReset(c.store) && c'.m.state == Recording
  {
  }

  lemma ChainSilent(c: Core, i: int)
    requires |c.store.slots| == MAX_SLOTS && c.m.state == Recording && c.store.draft == []
    requires !c.store.IsEmpty(i) && |c.store.slots[i].events| <= MAX_EVENTS
    ensures
      var c' := Dispatch(c, SlotKey, i, {}, []);
      c'.store == c.store.(draft := c.store.slots[i].events) && c'.m.state == Recording
  {
  }

  /** The acts after the cut tap: save the draft, begin a fresh take, chain the saved macro into it. */
  function Reuse(i: int): seq<Act> { [PressSlot(i), PressRec(), PressSlot(i)] }

  lemma ReuseRuns(d: Desk, i: int)
    requires
      var c := d.world.core;
      && |c.store.slots| == MAX_SLOTS && c.m.state == PendingAssign && IsSlot(i) && c.store.IsEmpty(i)
      && 0 < |c.store.draft| <= MAX_EVENTS && DraftCommit(c.store, i).1 == Ok
    ensures Possible(d, Reuse(i))
    ensures
      var r := RunActs(d, Reuse(i));
      && r.world.core.m.state == Recording && r.pending == NoPending()
      && r.world.core.store.draft == d.world.core.store.draft
      && |r.world.core.store.slots| == MAX_SLOTS && r.world.core.store.View(i) == d.world.core.store.draft
  {
    hide Dispatch, Possible, RunActs, NoPending;
    var d1 := Go(d, PressSlot(i));
    AssignSilent(d.world.core, i);
    var d2 := Go(d1, PressRec());
    RecSilent(d1.world.core);
    var d3 := Go(d2, PressSlot(i));
    ChainSilent(d2.world.core, i);
    ThreeActs(d, PressSlot(i), PressRec(), PressSlot(i));
  }

  lemma ThreeActs(d: Desk, a: Act, b: Act, c: Act)
    requires |d.world.core.store.slots| == MAX_SLOTS && Able(d, a)
    requires |Go(d, a).world.core.store.slots| == MAX_SLOTS && Able(Go(d, a), b)
    requires |Go(Go(d, a), b).world.core.store.slots| == MAX_SLOTS && Able(Go(Go(d, a), b), c)
    ensures Possible(d, [a, b, c]) && RunActs(d, [a, b, c]) == Go(Go(Go(d, a), b), c)
  {
    hide Go, Able;
    assert [a, b, c][1..] == [b, c] && [b, c][1..] == [c] && [c][1..] == [];
    var d2 := Go(Go(d, a), b);
    LastAct(d2, c);
    assert Possible(Go(d, a), [b, c]) && RunActs(Go(d, a), [b, c]) == Go(d2, c);
  }

  lemma LastAct(d: Desk, a: Act)
    requires |d.world.core.store.slots| == MAX_SLOTS && Able(d, a)
    ensures Possible(d, [a]) && RunActs(d, [a]) == Go(d, a)
  {
    hide Go, Able;
    assert [a][1..] == [];
  }

  /**
   * A cut tap, once saved, spreads: a fresh take that chains the saved macro holds a modifier down with
   * no overflow of its own. It can happen whenever a slot is free and the full draft fits.
   */
  lemma CutTapSpreads(d: Desk, e: Event, report: bv8, i: int)
    requires Tidy(d) && StrandsModifier(d, Keycode(e, report, {}))
    requires IsSlot(i) && d.world.core.store.IsEmpty(i) && d.world.core.store.playing == -1
    requires MAX_EVENTS + Total(d.world.core.store.slots) <= ARENA_EVENTS
    requires IsNvs(i) ==> MAX_EVENTS <= MAX_EVENTS_NVS
    ensures
      var acts := [Keycode(e, report, {})] + Reuse(i);
      && Possible(d, acts)
      && RunActs(d, acts).world.core.m.state == Recording
      && var s := RunActs(d, acts).world.core.store;
         !Paired(s.draft) && |s.slots| == MAX_SLOTS && s.View(i) == s.draft
  {
    hide Go, Reuse, Paired, Tidy, Total, StrandsModifier;
    assert |d.world.core.store.slots| == MAX_SLOTS by { TidySlots(d); }
    CutTap(d, e, report);
    var d1 := Go(d, Keycode(e, report, {}));
    ReuseRuns(d1, i);
    assert ([Keycode(e, report, {})] + Reuse(i))[1..] == Reuse(i);
  }

  lemma TidySlots(d: Desk)
    requires Tidy(d)
    ensures |d.world.core.store.slots| == MAX_SLOTS
  {
  }
}
