/**
 * The storage worker's reports: every delete that a slot waits for is under way or was reported, and
 * every report is delivered once, in order, unless four were waiting when it was due.
 */
module Completions {
  import opened Config
  import opened StoreSpec
  import opened StoreLaws
  import opened Storage
  import opened MachineSpec
  import opened System
  import opened SystemProofs
  import opened SystemTheorems

  // ---- a leaving slot waits for something ---------------------------------------------------------

  /** Slot `i`'s delete under stamp `gen` is queued, or its outcome is on its way back. */
  ghost predicate UnderWay(q: seq<Op>, cs: seq<Completion>, i: int, gen: nat) {
    || Delete(i, gen) in q
    || DeleteDone(i, gen, true) in cs
    || DeleteDone(i, gen, false) in cs
  }

  ghost predicate Awaited(s: Store, q: seq<Op>, cs: seq<Completion>, i: int)
    requires |s.slots| == MAX_SLOTS
  {
    IsSlot(i) && s.slots[i].pending ==> UnderWay(q, cs, i, s.slots[i].gen)
  }

  /** The worker runs the delete slot `i` waits for while four completions wait: its report is dropped. */
  predicate DropsReport(w: World, st: Step, i: int)
    requires |w.core.store.slots| == MAX_SLOTS
  {
    && st.Work? && w.core.queue != [] && IsSlot(i) && w.core.store.slots[i].pending
    && w.core.queue[0] == Delete(i, w.core.store.slots[i].gen) && |w.completions| >= QUEUE_LEN
  }

  /**
   * What a transition can do to the queue and to leaving slots: operations are only appended, and a
   * slot that is leaving afterwards was leaving under the same stamp, or has had its delete appended.
   */
  ghost predicate Requests(c: Core, c': Core) {
    && |c.store.slots| == |c'.store.slots| == MAX_SLOTS && c.queue <= c'.queue
    && forall i :: IsSlot(i) && c'.store.slots[i].pending ==>
         || (c.store.slots[i].pending && c.store.slots[i].gen == c'.store.slots[i].gen)
         || Delete(i, c'.store.slots[i].gen) in c'.queue
  }

  lemma RequestsChain(a: Core, b: Core, c: Core)
    requires Requests(a, b) && Requests(b, c)
    ensures Requests(a, c)
  {
  }

  lemma SameRequests(c: Core, c': Core)
    requires |c.store.slots| == MAX_SLOTS && c'.store.slots == c.store.slots && c.queue <= c'.queue
    ensures Requests(c, c')
  {
  }

  /** A cue spoken from `c1`, which `c` has become; the machine's own fields are of no account. */
  lemma SayRequests(
      c: Core, c1: Core, returnTo: State, notice: Notice, slot: int, slot2: int, kind: FbKind, gate: Gate)
    requires |c1.store.slots| == MAX_SLOTS && Requests(c, c1)
    ensures Requests(c, Say(c1, returnTo, notice, slot, slot2, kind, gate))
  {
    hide Requests;
    SameRequests(c1, Say(c1, returnTo, notice, slot, slot2, kind, gate));
    RequestsChain(c, c1, Say(c1, returnTo, notice, slot, slot2, kind, gate));
  }

  lemma MachineOnly(c: Core, c1: Core, c2: Core)
    requires Requests(c, c1) && c2.store == c1.store && c2.queue == c1.queue
    ensures Requests(c, c2)
  {
  }

  lemma Slots(c: Core, c': Core)
    requires Requests(c, c')
    ensures |c.store.slots| == |c'.store.slots| == MAX_SLOTS
  {
  }

  lemma DeleteRequests(c: Core, i: int)
    requires |c.store.slots| == MAX_SLOTS
    ensures Requests(c, StoreDelete(c, i).0)
  {
    assert IsNvs(i) ==> Delete(i, c.store.slots[i].gen) in c.queue + [Delete(i, c.store.slots[i].gen)];
  }

  lemma CommitRequests(c: Core, i: int)
    requires |c.store.slots| == MAX_SLOTS
    ensures Requests(c, StoreCommit(c, i).0)
  {
    hide Total;
  }

  lemma MoveRequests(c: Core, src: int, dst: int)
    requires |c.store.slots| == MAX_SLOTS
    ensures Requests(c, StoreMove(c, src, dst).0)
  {
  }

  lemma AssignEmptyRequests(c: Core, c0: Core, i: int, gate: Gate)
    requires |c0.store.slots| == MAX_SLOTS && Requests(c, c0)
    ensures Requests(c, AssignEmpty(c0, i, gate))
  {
    hide Say, Total, Requests;
    CommitRequests(c0, i);
    var c1 := StoreCommit(c0, i).0;
    RequestsChain(c, c0, c1);
    Slots(c0, c1);
    var c2 := c1.(m := c1.m.(postSave := i));
    MachineOnly(c, c1, c2);
    SayRequests(c, c1, PendingAssign, ErrorTooLarge, i, -1, FbTooLarge, gate);
    SayRequests(c, c1, PendingAssign, ErrorSlotOccupied, i, -1, FbSlotFull, gate);
    SayRequests(c, c2, Idle, Saved, i, -1, FbSaved, gate);
  }

  lemma AssignRequests(c: Core, i: int, gate: Gate)
    requires |c.store.slots| == MAX_SLOTS
    ensures Requests(c, SlotAssign(c, i, gate))
  {
    hide Say, Requests, AssignEmpty, StoreDelete;
    var c0 := c.(armed := false);
    SameRequests(c, c0);
    DeleteRequests(c0, i);
    var c1 := StoreDelete(c0, i).0;
    RequestsChain(c, c0, c1);
    Slots(c0, c1);
    AssignEmptyRequests(c, c0, i, gate);
    AssignEmptyRequests(c, c1, i, gate);
    SayRequests(c, c0, PendingAssign, ErrorSlotOccupied, i, -1, FbSlotFull, gate);
    SayRequests(c, c1, PendingAssign, ErrorDeleteQueueFull, i, -1, FbDeleteQfull, gate);
  }

  lemma SlotDeleteRequests(c: Core, i: int, gate: Gate)
    requires |c.store.slots| == MAX_SLOTS
    ensures Requests(c, SlotDelete(c, i, gate))
  {
    hide Say, Requests, StoreDelete, TypingFinished;
    var c0 := c.(armed := false);
    SameRequests(c, c0);
    DeleteRequests(c0, i);
    var c1 := StoreDelete(c0, i).0;
    RequestsChain(c, c0, c1);
    Slots(c0, c1);
    MachineOnly(c, c1, EnterTyping(c1, Idle));
    FinishRequests(c, EnterTyping(c1, Idle), gate);
    SayRequests(c, c0, Idle, ErrorSlotEmpty, i, -1, FbSlotEmpty, gate);
    SayRequests(c, c1, Idle, ErrorDeleteQueueFull, i, -1, FbDeleteQfull, gate);
    SayRequests(c, c1, Idle, Deleted, i, -1, FbDeleted, gate);
  }

  lemma FinishRequests(c: Core, c1: Core, gate: Gate)
    requires |c1.store.slots| == MAX_SLOTS && Requests(c, c1)
    ensures Requests(c, TypingFinished(c1, gate))
  {
    hide Requests;
    SameRequests(c1, TypingFinished(c1, gate));
    RequestsChain(c, c1, TypingFinished(c1, gate));
  }

  lemma MoveIntoRequests(c: Core, c0: Core, src: int, dst: int, gate: Gate)
    requires |c0.store.slots| == MAX_SLOTS && Requests(c, c0)
    ensures Requests(c, MoveInto(c0, src, dst, gate))
  {
    hide Say, Requests, StoreMove;
    var c1 := c0.(m := c0.m.(moveSource := -1), armed := false);
    MachineOnly(c, c0, c1);
    MoveRequests(c1, src, dst);
    var c2 := StoreMove(c1, src, dst).0;
    RequestsChain(c, c1, c2);
    Slots(c1, c2);
    SayRequests(c, c2, Idle, ErrorTooLarge, dst, -1, FbTooLarge, gate);
    SayRequests(c, c2, Idle, ErrorSaveQueueFull, dst, -1, FbSaveQfull, gate);
    SayRequests(c, c2, Idle, ErrorDeleteQueueFull, src, -1, FbDeleteQfull, gate);
    SayRequests(c, c2, Idle, Moved, dst, src, FbMoved, gate);
  }

  lemma SlotMoveRequests(c: Core, i: int, gate: Gate)
    requires |c.store.slots| == MAX_SLOTS
    ensures Requests(c, SlotMove(c, i, gate))
  {
    hide Say, Requests, StoreDelete, MoveInto;
    var src := c.m.moveSource;
    SameRequests(c, c);
    var cancelled, selected := c.(m := c.m.(moveSource := -1), armed := false), c.(m := c.m.(moveSource := i));
    SameRequests(c, cancelled);
    SameRequests(c, selected);
    DeleteRequests(c, i);
    var c1 := StoreDelete(c, i).0;
    Slots(c, c1);
    MoveIntoRequests(c, c, src, i, gate);
    MoveIntoRequests(c, c1, src, i, gate);
    SayRequests(c, c, MovePending, ErrorSlotEmpty, i, -1, FbSlotEmpty, gate);
    SayRequests(c, selected, MovePending, MoveSrcSelected, i, -1, FbMoveSrc, gate);
    SayRequests(c, cancelled, Idle, MoveCancelled, -1, -1, FbMoveCancel, gate);
    SayRequests(c, c, MovePending, ErrorSlotOccupied, i, -1, FbSlotFull, gate);
    SayRequests(c, c1, MovePending, ErrorDeleteQueueFull, i, -1, FbDeleteQfull, gate);
  }

  lemma ChainRequests(c: Core, i: int, gate: Gate)
    requires |c.store.slots| == MAX_SLOTS
    ensures Requests(c, SlotRecording(c, i, gate))
  {
    hide Say, Requests;
    SameRequests(c, c);
    var chained := c.(store := DraftChain(c.store, i).0);
    SameRequests(c, chained);
    SayRequests(c, c, Recording, ErrorSlotEmpty, i, -1, FbChainEmpty, gate);
    SayRequests(c, c, Recording, ErrorChainFull, i, -1, FbChainNoRoom, gate);
    SayRequests(c, chained, Recording, ChainInserted, i, -1, FbChainInsert, gate);
  }

  /** The transitions that leave every slot alone. */
  lemma SlotOthersRequest(c: Core, i: int, gate: Gate)
    requires |c.store.slots| == MAX_SLOTS
    ensures Requests(c, SlotPreview(c, i, gate)) && Requests(c, SlotPlay(c, i, gate))
  {
    hide Requests;
    SameRequests(c, SlotPreview(c, i, gate));
    SameRequests(c, SlotPlay(c, i, gate));
  }

  lemma TakesRequest(c: Core, gate: Gate)
    requires |c.store.slots| == MAX_SLOTS
    ensures Requests(c, DoRec(c, gate)) && Requests(c, DoStop(c, gate)) && Requests(c, DoOverflow(c, gate))
  {
    hide Requests, Say;
    var c0 := c.(armed := false, store := DraftReset(c.store));
    SameRequests(c, c);
    SameRequests(c, c0);
    SayRequests(c, c0, Recording, RecordingStarted, -1, -1, FbRec, gate);
    SayRequests(c, c, Idle, ErrorNoRecording, -1, -1, FbNoRec, gate);
    SayRequests(c, c, PendingAssign, RecordingStopped, -1, -1, FbStop, gate);
    SayRequests(c, c, PendingAssign, ErrorOverflow, -1, -1, FbOverflow, gate);
  }

  lemma ModesRequest(c: Core, gate: Gate, knobs: seq<Op>)
    requires |c.store.slots| == MAX_SLOTS
    ensures Requests(c, DoDeleteMode(c)) && Requests(c, DoPreview(c))
    ensures Requests(c, DoMoveMode(c, gate)) && Requests(c, DoStatus(c, gate)) && Requests(c, DoKnob(c, gate, knobs))
  {
    hide Requests, Say, TypingFinished;
    SameRequests(c, DoDeleteMode(c));
    SameRequests(c, DoPreview(c));
    var unsourced := c.(m := c.m.(moveSource := -1));
    SameRequests(c, unsourced);
    SayRequests(c, unsourced, MovePending, MovePrompt, -1, -1, FbMovePrompt, gate);
    var header := Voice(EnterTyping(c, Idle), FbStatusHeader, -1, -1);
    SameRequests(c, header);
    FinishRequests(c, header, gate);
    var c1 := Notify(EnterTyping(c, Idle), SettingsChanged, -1, -1);
    var knob := Voice(c1.(queue := WithKnobs(c1.queue, knobs)), FbKnob, -1, -1);
    SameRequests(c, knob);
    FinishRequests(c, knob, gate);
  }

  lemma DispatchRequests(c: Core, cmd: Command, i: int, gate: Gate, knobs: seq<Op>)
    requires |c.store.slots| == MAX_SLOTS
    ensures Requests(c, Dispatch(c, cmd, i, gate, knobs))
  {
    hide Requests, DoRec, DoStop, DoOverflow, DoMoveMode, DoStatus, DoKnob, DoDeleteMode, DoPreview;
    hide SlotRecording, SlotAssign, SlotDelete, SlotMove, SlotPreview, SlotPlay;
    SameRequests(c, c);
    SlotOthersRequest(c, i, gate);
    TakesRequest(c, gate);
    ModesRequest(c, gate, knobs);
    ChainRequests(c, i, gate);
    AssignRequests(c, i, gate);
    SlotDeleteRequests(c, i, gate);
    SlotMoveRequests(c, i, gate);
  }

  lemma RequestsAwait(c: Core, c': Core, cs: seq<Completion>, i: int)
    requires Requests(c, c') && Awaited(c.store, c.queue, cs, i)
    ensures Awaited(c'.store, c'.queue, cs, i)
  {
    if IsSlot(i) && c'.store.slots[i].pending && Delete(i, c'.store.slots[i].gen) in c.queue {
      assert Delete(i, c'.store.slots[i].gen) in c'.queue;
    }
  }

  // ---- the other steps --------------------------------------------------------------------------------

  lemma WorkAwaits(w: World, ok: bool, i: int)
    requires Inv(w) && w.core.queue != [] && Awaited(w.core.store, w.core.queue, w.completions, i)
    ensures
      var w' := WorkStep(w, ok);
      Awaited(w'.core.store, w'.core.queue, w'.completions, i) <==> !DropsReport(w, Work(ok), i)
  {
    hide Agrees, Recoverable, Total, LeavingHolds, Failed, Spoiled, Lone;
    var s, q, cs := w.core.store, w.core.queue, w.completions;
    if IsSlot(i) && s.slots[i].pending {
      if q[0] == Delete(i, s.slots[i].gen) {
        NoOther(s, q, cs, i);
      }
      QueueSplits(q, Delete(i, s.slots[i].gen));
      var cs' := WorkStep(w, ok).completions;
      assert forall c :: c in cs ==> c in cs' by { assert cs <= cs'; }
      assert q[0] == Delete(i, s.slots[i].gen) && |cs| < QUEUE_LEN ==> cs'[|cs|] == DeleteDone(i, s.slots[i].gen, ok);
    }
  }

  lemma QueueSplits(q: seq<Op>, op: Op)
    requires q != []
    ensures op in q <==> op == q[0] || op in q[1..]
  {
    assert q == [q[0]] + q[1..];
  }

  /** What a leaving slot waits for is there only once. */
  lemma NoOther(s: Store, q: seq<Op>, cs: seq<Completion>, i: int)
    requires |s.slots| == MAX_SLOTS && Lone(s, q, cs) && q != [] && IsSlot(i)
    requires forall k :: 0 <= k < |q| && !q[k].SaveKnobs? ==> IsNvs(q[k].slot)
    requires q[0] == Delete(i, s.slots[i].gen)
    ensures Delete(i, s.slots[i].gen) !in q[1..]
    ensures DeleteDone(i, s.slots[i].gen, true) !in cs && DeleteDone(i, s.slots[i].gen, false) !in cs
  {
    assert forall k :: 0 <= k < |q[1..]| ==> q[1..][k] == q[k + 1];
  }

  lemma DeliverAwaits(w: World, gate: Gate, i: int)
    requires |w.core.store.slots| == MAX_SLOTS && w.completions != []
    requires Awaited(w.core.store, w.core.queue, w.completions, i)
    ensures
      var w' := DeliverStep(w, gate);
      |w'.core.store.slots| == MAX_SLOTS && Awaited(w'.core.store, w'.core.queue, w'.completions, i)
  {
    hide DeliverAsync, Requests;
    var cs := w.completions;
    assert cs == [cs[0]] + cs[1..];
    match cs[0] {
      case DeleteDone(j, gen, ok) =>
        var (s, rc) := CompleteDelete(w.core.store, j, gen, ok);
        var c := Healed(w.core.(store := s), rc, j);
        assert Awaited(c.store, c.queue, cs[1..], i);
        AsyncRequests(c, rc, j, gate);
        RequestsAwait(c, DeliverAsync(c, rc, j, gate), cs[1..], i);
      case SaveFailedOn(j) =>
        AsyncRequests(w.core, SaveFailed, j, gate);
        RequestsAwait(w.core, DeliverAsync(w.core, SaveFailed, j, gate), cs[1..], i);
    }
  }

  lemma AsyncRequests(c: Core, rc: DmResult, i: int, gate: Gate)
    requires |c.store.slots| == MAX_SLOTS
    ensures Requests(c, DeliverAsync(c, rc, i, gate)) && |DeliverAsync(c, rc, i, gate).store.slots| == MAX_SLOTS
  {
    hide Say, Requests;
    SameRequests(c, c);
    SayRequests(c, c, Idle, Deleted, i, -1, FbDeleted, gate);
    SayRequests(c, c, Idle, ErrorSaveFailed, i, -1, FbSaveFailed, gate);
    SayRequests(c, c, Idle, ErrorDeleteFailed, i, -1, FbDeleteFailed, gate);
    Slots(c, DeliverAsync(c, rc, i, gate));
  }

  lemma PlainRequests(w: World, st: Step)
    requires |w.core.store.slots| == MAX_SLOTS && Enabled(w, st) && !st.Work? && !st.Deliver?
    ensures Requests(w.core, Next(w, st).core) && Next(w, st).completions == w.completions
  {
    hide Requests, Dispatch, TypingFinished;
    SameRequests(w.core, w.core);
    if st.Press? {
      DispatchRequests(w.core, st.cmd, st.slot, st.gate, st.knobs);
    } else if st.Key? {
      DispatchRequests(w.core, Overflow, 0, st.gate, []);
      SameRequests(w.core, w.core.(store := DraftAppend(w.core.store, st.event).0));
    } else if st.TypingDone? {
      FinishRequests(w.core, w.core, st.gate);
    } else {
      SameRequests(w.core, Next(w, st).core);
    }
  }

  /** A slot stays awaited through one step exactly when the step does not drop its report. */
  lemma AwaitedUnlessDropped(w: World, st: Step, i: int)
    requires Inv(w) && Enabled(w, st)
    ensures |w.core.store.slots| == |Next(w, st).core.store.slots| == MAX_SLOTS
    ensures Awaited(w.core.store, w.core.queue, w.completions, i) ==>
      var w' := Next(w, st);
      Awaited(w'.core.store, w'.core.queue, w'.completions, i) <==> !DropsReport(w, st, i)
  {
    hide Agrees, Recoverable, Stamped, Total, LeavingHolds, WorkStep, DeliverStep, Awaited, Requests;
    hide Dispatch, RecordEvent, TypingFinished, EraseDue, EraseRestore, Timeout, PlayFinished;
    NextKeeps(w, st);
    if Awaited(w.core.store, w.core.queue, w.completions, i) {
      if st.Work? {
        WorkAwaits(w, st.ok, i);
      } else if st.Deliver? {
        DeliverAwaits(w, st.gate, i);
      } else {
        PlainRequests(w, st);
        RequestsAwait(w.core, Next(w, st).core, w.completions, i);
      }
    }
  }

  // ---- whole runs -------------------------------------------------------------------------------------

  ghost predicate AllAwaited(w: World) {
    |w.core.store.slots| == MAX_SLOTS && forall i :: Awaited(w.core.store, w.core.queue, w.completions, i)
  }

  /** No report that a leaving slot waits for is dropped along the way. */
  ghost predicate NeverDrops(w: World, steps: seq<Step>)
    requires Legal(w, steps)
    decreases |steps|
  {
    steps == [] || ((forall i :: !DropsReport(w, steps[0], i)) && NeverDrops(Next(w, steps[0]), steps[1..]))
  }

  lemma {:induction false} RunAwaits(w: World, steps: seq<Step>)
    requires Inv(w) && AllAwaited(w) && Legal(w, steps) && NeverDrops(w, steps)
    ensures AllAwaited(RunTo(w, steps))
    decreases |steps|
  {
    hide Inv, Next, Enabled, Awaited, DropsReport;
    if steps != [] {
      NextKeeps(w, steps[0]);
      AwaitedUnlessDropped(w, steps[0], 0);
      forall i
        ensures Awaited(Next(w, steps[0]).core.store, Next(w, steps[0]).core.queue, Next(w, steps[0]).completions, i)
      {
        AwaitedUnlessDropped(w, steps[0], i);
      }
      RunAwaits(Next(w, steps[0]), steps[1..]);
    }
  }

  /**
   * Every delete comes to an end: after any run from boot in which no awaited report was dropped, once
   * nothing is queued and nothing waits to be delivered no slot is leaving, so the pool holds exactly
   * what the slots show.
   */
  lemma DeletesComeToAnEnd(w0: World, steps: seq<Step>)
    requires Booted(w0) && Legal(w0, steps) && NeverDrops(w0, steps)
    requires RunTo(w0, steps).core.queue == [] && RunTo(w0, steps).completions == []
    ensures
      var s := RunTo(w0, steps).core.store;
      |s.slots| == MAX_SLOTS && forall i :: IsSlot(i) ==> !s.slots[i].pending && s.slots[i].events == s.View(i)
  {
    hide Inv, RunTo, Legal, NeverDrops;
    BootKeeps(w0);
    BootAwaits(w0);
    RunAwaits(w0, steps);
    var w := RunTo(w0, steps);
    forall i | IsSlot(i)
      ensures !w.core.store.slots[i].pending
    {
      assert Awaited(w.core.store, w.core.queue, w.completions, i);
    }
  }

  lemma BootAwaits(w: World)
    requires Booted(w)
    ensures AllAwaited(w)
  {
    hide Total;
  }

  // ---- reports are conserved ----------------------------------------------------------------------------

  /** What a storage operation has to report: a delete always, a save when it failed. */
  function Report(op: Op, ok: bool): seq<Completion> {
    match op
    case Save(i, _, _) => if ok then [] else [SaveFailedOn(i)]
    case Delete(i, gen) => [DeleteDone(i, gen, ok)]
    case SaveKnobs(_, _, _) => []
  }

  /** What a step has to report, where there is room for it. */
  function StepReport(w: World, st: Step): seq<Completion>
    requires Enabled(w, st)
  {
    if st.Work? && |w.completions| < QUEUE_LEN then Report(w.core.queue[0], st.ok) else []
  }

  function StepDelivery(w: World, st: Step): seq<Completion>
    requires Enabled(w, st)
  {
    if st.Deliver? then [w.completions[0]] else []
  }

  ghost function Reported(w: World, steps: seq<Step>): seq<Completion>
    requires Legal(w, steps)
    decreases |steps|
  {
    if steps == [] then [] else StepReport(w, steps[0]) + Reported(Next(w, steps[0]), steps[1..])
  }

  ghost function Delivered(w: World, steps: seq<Step>): seq<Completion>
    requires Legal(w, steps)
    decreases |steps|
  {
    if steps == [] then [] else StepDelivery(w, steps[0]) + Delivered(Next(w, steps[0]), steps[1..])
  }

  lemma StepConserves(w: World, st: Step)
    requires |w.core.store.slots| == MAX_SLOTS && Enabled(w, st)
    ensures w.completions + StepReport(w, st) == StepDelivery(w, st) + Next(w, st).completions
  {
    hide Dispatch, RecordEvent, TypingFinished, DeliverAsync, Failed, Spoiled, Requests;
    if !st.Work? && !st.Deliver? {
      PlainRequests(w, st);
    }
  }

  /**
   * Over any run the outcomes of all operations that have one, in the order the worker ran them, are
   * delivered or still waiting, each exactly once; only an outcome that found four waiting is missing.
   */
  lemma {:induction false} ReportsAreConserved(w: World, steps: seq<Step>)
    requires Legal(w, steps)
    ensures w.completions + Reported(w, steps) == Delivered(w, steps) + RunTo(w, steps).completions
    decreases |steps|
  {
    hide Next, Enabled, StepReport, StepDelivery;
    if steps != [] {
      StepConserves(w, steps[0]);
      var mid, rest := Next(w, steps[0]), steps[1..];
      ReportsAreConserved(mid, rest);
      Regroup(w.completions, StepReport(w, steps[0]), Reported(mid, rest),
              StepDelivery(w, steps[0]), mid.completions, Delivered(mid, rest), RunTo(mid, rest).completions);
    }
  }

  lemma Regroup<T>(a: seq<T>, b: seq<T>, b': seq<T>, d: seq<T>, m: seq<T>, d': seq<T>, z: seq<T>)
    requires a + b == d + m && m + b' == d' + z
    ensures a + (b + b') == (d + d') + z
  {
    assert a + (b + b') == (a + b) + b' == d + (m + b');
  }

  /** What a delivery announces from IDLE: a failed save, and a delete that was still waited for. */
  function Announcement(s: Store, c: Completion): seq<Note>
    requires |s.slots| == MAX_SLOTS
  {
    match c
    case SaveFailedOn(i) => [Note(ErrorSaveFailed, i, -1, Idle)]
    case DeleteDone(i, gen, ok) =>
      if !(IsSlot(i) && s.slots[i].pending && s.slots[i].gen == gen) then []
      else [Note(if ok then Deleted else ErrorDeleteFailed, i, -1, Idle)]
  }

  /** From IDLE every outcome is announced, at any feedback level; from another state nothing is. */
  lemma DeliveryIsTold(w: World, gate: Gate)
    requires |w.core.store.slots| == MAX_SLOTS && w.completions != [] && w.core.m.postSave == -1
    ensures
      Next(w, Deliver(gate)).core.notes
      == w.core.notes + if w.core.m.state == Idle then Announcement(w.core.store, w.completions[0]) else []
  {
  }
}
