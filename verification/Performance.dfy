/**
 * The playback emitter and the composed firmware together: from the press of a slot key to the fire
 * that ends playback, whatever keys, bindings and background steps come between.
 */
module Performance {
  import opened Config
  import opened StoreSpec
  import opened StoreLaws
  import opened MachineSpec
  import opened System
  import opened SystemProofs
  import opened SystemTheorems
  import SystemModes
  import Playback

  datatype Stage = Stage(world: World, player: Playback.Player)

  datatype Cue =
    | Tick                // the playback timer fires
    | Keyed(e: Event)     // a foreign key reaches the listener
    | Other(step: Step)   // any step of the firmware but the end of playback

  /** The press that starts a playback (slot_play and the mark it leaves with the emitter). */
  predicate Starts(w: World, st: Step)
    requires |w.core.store.slots| == MAX_SLOTS
  {
    st.Press? && st.cmd == SlotKey && w.core.m.state == Idle && !w.core.store.IsEmpty(st.slot)
  }

  /** Emitter and machine agree on whether and what is playing. */
  predicate InStep(g: Stage) {
    && |g.world.core.store.slots| == MAX_SLOTS
    && g.player.slot == g.world.core.store.playing
    && (g.player.slot >= 0 <==> g.world.core.m.state == Playing)
  }

  predicate Able(g: Stage, c: Cue) {
    match c
    case Other(st) => st != PlayEnd && Enabled(g.world, st)
    case _ => true
  }

  function Shown(g: Stage): seq<Event>
    requires |g.world.core.store.slots| == MAX_SLOTS
  {
    g.world.core.store.View(g.player.slot)
  }

  function Fired(g: Stage): Stage
    requires InStep(g)
  {
    var world := if Playback.Finishes(g.player, Shown(g)) then Next(g.world, PlayEnd) else g.world;
    Stage(world, Playback.Step(g.player, Shown(g)))
  }

  function Taken(g: Stage, st: Step): Stage
    requires InStep(g) && Enabled(g.world, st)
  {
    Stage(Next(g.world, st), if Starts(g.world, st) then Playback.Begin(g.player, st.slot) else g.player)
  }

  function Go(g: Stage, c: Cue): Stage
    requires InStep(g) && Able(g, c)
  {
    match c
    case Tick => Fired(g)
    case Keyed(e) => Stage(g.world, Playback.Meet(g.player, e))
    case Other(st) => Taken(g, st)
  }

  // ---- emitter and firmware stay in step -----------------------------------------------------------

  ghost predicate Tied(g: Stage) {
    && Inv(g.world) && InStep(g)
    && |g.player.bubbled| == Playback.BUBBLED_ENTRIES && (g.player.slot < 0 ==> g.player.ring == [])
  }

  lemma SayElsewhere(c: Core, returnTo: State, notice: Notice, slot: int, slot2: int, kind: FbKind, gate: Gate)
    requires |c.store.slots| == MAX_SLOTS && returnTo != Playing
    ensures Say(c, returnTo, notice, slot, slot2, kind, gate).m.state != Playing
  {
  }

  lemma AssignEmptyElsewhere(c: Core, i: int, gate: Gate)
    requires |c.store.slots| == MAX_SLOTS
    ensures AssignEmpty(c, i, gate).m.state != Playing
  {
    hide Total;
  }

  lemma AssignElsewhere(c: Core, i: int, gate: Gate)
    requires |c.store.slots| == MAX_SLOTS
    ensures SlotAssign(c, i, gate).m.state != Playing
  {
    hide AssignEmpty, Say;
    var c0 := c.(armed := false);
    var c1 := StoreDelete(c0, i).0;
    AssignEmptyElsewhere(c0, i, gate);
    AssignEmptyElsewhere(c1, i, gate);
    SayElsewhere(c0, PendingAssign, ErrorSlotOccupied, i, -1, FbSlotFull, gate);
    SayElsewhere(c1, PendingAssign, ErrorDeleteQueueFull, i, -1, FbDeleteQfull, gate);
  }

  lemma DeleteElsewhere(c: Core, i: int, gate: Gate)
    requires |c.store.slots| == MAX_SLOTS
    ensures SlotDelete(c, i, gate).m.state != Playing
  {
    hide Say;
    var c0 := c.(armed := false);
    var c1 := StoreDelete(c0, i).0;
    SayElsewhere(c0, Idle, ErrorSlotEmpty, i, -1, FbSlotEmpty, gate);
    SayElsewhere(c1, Idle, ErrorDeleteQueueFull, i, -1, FbDeleteQfull, gate);
    SayElsewhere(c1, Idle, Deleted, i, -1, FbDeleted, gate);
  }

  lemma MoveIntoElsewhere(c: Core, src: int, dst: int, gate: Gate)
    requires |c.store.slots| == MAX_SLOTS
    ensures MoveInto(c, src, dst, gate).m.state != Playing
  {
    hide Say;
    var c1 := StoreMove(c.(m := c.m.(moveSource := -1), armed := false), src, dst).0;
    SayElsewhere(c1, Idle, ErrorTooLarge, dst, -1, FbTooLarge, gate);
    SayElsewhere(c1, Idle, ErrorSaveQueueFull, dst, -1, FbSaveQfull, gate);
    SayElsewhere(c1, Idle, ErrorDeleteQueueFull, src, -1, FbDeleteQfull, gate);
    SayElsewhere(c1, Idle, Moved, dst, src, FbMoved, gate);
  }

  lemma MoveElsewhere(c: Core, i: int, gate: Gate)
    requires |c.store.slots| == MAX_SLOTS
    ensures SlotMove(c, i, gate).m.state != Playing
  {
    hide Say, MoveInto;
    var src, c1 := c.m.moveSource, StoreDelete(c, i).0;
    MoveIntoElsewhere(c, src, i, gate);
    MoveIntoElsewhere(c1, src, i, gate);
    SayElsewhere(c, MovePending, ErrorSlotEmpty, i, -1, FbSlotEmpty, gate);
    SayElsewhere(c.(m := c.m.(moveSource := i)), MovePending, MoveSrcSelected, i, -1, FbMoveSrc, gate);
    SayElsewhere(c.(m := c.m.(moveSource := -1), armed := false), Idle, MoveCancelled, -1, -1, FbMoveCancel, gate);
    SayElsewhere(c, MovePending, ErrorSlotOccupied, i, -1, FbSlotFull, gate);
    SayElsewhere(c1, MovePending, ErrorDeleteQueueFull, i, -1, FbDeleteQfull, gate);
  }

  lemma ChainElsewhere(c: Core, i: int, gate: Gate)
    requires |c.store.slots| == MAX_SLOTS
    ensures SlotRecording(c, i, gate).m.state != Playing
  {
    hide Say;
    SayElsewhere(c, Recording, ErrorSlotEmpty, i, -1, FbChainEmpty, gate);
    SayElsewhere(c, Recording, ErrorChainFull, i, -1, FbChainNoRoom, gate);
    SayElsewhere(c.(store := DraftChain(c.store, i).0), Recording, ChainInserted, i, -1, FbChainInsert, gate);
  }

  lemma PreviewElsewhere(c: Core, i: int, gate: Gate)
    requires |c.store.slots| == MAX_SLOTS
    ensures SlotPreview(c, i, gate).m.state != Playing
    ensures c.store.IsEmpty(i) ==> SlotPlay(c, i, gate).m.state != Playing
  {
  }

  lemma SlotElsewhere(c: Core, i: int, gate: Gate)
    requires |c.store.slots| == MAX_SLOTS && c.m.state != Playing && (c.m.state == Idle ==> c.store.IsEmpty(i))
    ensures DoSlot(c, i, gate).m.state != Playing
  {
    hide SlotAssign, SlotDelete, SlotMove, SlotRecording, SlotPreview, SlotPlay;
    AssignElsewhere(c, i, gate);
    DeleteElsewhere(c, i, gate);
    MoveElsewhere(c, i, gate);
    ChainElsewhere(c, i, gate);
    PreviewElsewhere(c, i, gate);
  }

  lemma TakesElsewhere(c: Core, gate: Gate)
    requires |c.store.slots| == MAX_SLOTS
    ensures DoRec(c, gate).m.state != Playing && DoStop(c, gate).m.state != Playing
    ensures DoOverflow(c, gate).m.state != Playing
  {
    hide Say;
    var c0 := c.(armed := false, store := DraftReset(c.store));
    SayElsewhere(c0, Recording, RecordingStarted, -1, -1, FbRec, gate);
    SayElsewhere(c, Idle, ErrorNoRecording, -1, -1, FbNoRec, gate);
    SayElsewhere(c, PendingAssign, RecordingStopped, -1, -1, FbStop, gate);
    SayElsewhere(c, PendingAssign, ErrorOverflow, -1, -1, FbOverflow, gate);
  }

  lemma FinishElsewhere(c: Core, gate: Gate)
    requires |c.store.slots| == MAX_SLOTS && c.m.returnState != Playing
    ensures TypingFinished(c, gate).m.state != Playing
  {
  }

  lemma ModesElsewhere(c: Core, gate: Gate, knobs: seq<Op>)
    requires |c.store.slots| == MAX_SLOTS
    ensures DoMoveMode(c, gate).m.state != Playing && DoStatus(c, gate).m.state != Playing
    ensures DoKnob(c, gate, knobs).m.state != Playing
  {
    hide Say, TypingFinished;
    SayElsewhere(c.(m := c.m.(moveSource := -1)), MovePending, MovePrompt, -1, -1, FbMovePrompt, gate);
    FinishElsewhere(Voice(EnterTyping(c, Idle), FbStatusHeader, -1, -1), gate);
    var c1 := Notify(EnterTyping(c, Idle), SettingsChanged, -1, -1);
    FinishElsewhere(Voice(c1.(queue := WithKnobs(c1.queue, knobs)), FbKnob, -1, -1), gate);
  }

  lemma DispatchElsewhere(c: Core, cmd: Command, i: int, gate: Gate, knobs: seq<Op>)
    requires |c.store.slots| == MAX_SLOTS && c.m.state != Playing
    requires cmd == SlotKey && c.m.state == Idle ==> c.store.IsEmpty(i)
    ensures Dispatch(c, cmd, i, gate, knobs).m.state != Playing
  {
    hide DoSlot, DoRec, DoStop, DoOverflow, DoMoveMode, DoStatus, DoKnob;
    TakesElsewhere(c, gate);
    ModesElsewhere(c, gate, knobs);
    if cmd == SlotKey {
      SlotElsewhere(c, i, gate);
    }
  }

  lemma AsyncElsewhere(c: Core, rc: DmResult, i: int, gate: Gate)
    requires |c.store.slots| == MAX_SLOTS && c.m.state != Playing
    ensures DeliverAsync(c, rc, i, gate).m.state != Playing
  {
    hide Say;
    SayElsewhere(c, Idle, Deleted, i, -1, FbDeleted, gate);
    SayElsewhere(c, Idle, ErrorSaveFailed, i, -1, FbSaveFailed, gate);
    SayElsewhere(c, Idle, ErrorDeleteFailed, i, -1, FbDeleteFailed, gate);
  }

  lemma DeliverElsewhere(w: World, gate: Gate)
    requires |w.core.store.slots| == MAX_SLOTS && w.core.m.state != Playing && w.completions != []
    ensures DeliverStep(w, gate).core.m.state != Playing
  {
    hide DeliverAsync;
    match w.completions[0] {
      case DeleteDone(i, gen, ok) =>
        var (s, rc) := CompleteDelete(w.core.store, i, gen, ok);
        AsyncElsewhere(Healed(w.core.(store := s), rc, i), rc, i, gate);
      case SaveFailedOn(i) => AsyncElsewhere(w.core, SaveFailed, i, gate);
    }
  }

  /** Only the press of a slot that holds a macro starts a playback. */
  lemma StartsOrElsewhere(w: World, st: Step)
    requires Inv(w) && Enabled(w, st) && st != PlayEnd && w.core.m.state != Playing
    ensures |w.core.store.slots| == MAX_SLOTS
    ensures Next(w, st).core.m.state == Playing <==> Starts(w, st)
    ensures Starts(w, st) ==> Next(w, st).core.store.playing == st.slot >= 0
  {
    hide Agrees, Recoverable, Stamped, Total, LeavingHolds, Dispatch, DeliverStep, Failed, Spoiled;
    match st {
      case Press(cmd, i, gate, knobs) =>
        if Starts(w, st) {
          StartMarks(w.core, i, gate, knobs);
        } else {
          DispatchElsewhere(w.core, cmd, i, gate, knobs);
        }
      case Key(e, gate) => DispatchElsewhere(w.core, Overflow, 0, gate, []);
      case Deliver(gate) => DeliverElsewhere(w, gate);
      case _ =>
    }
  }

  lemma StartMarks(c: Core, i: int, gate: Gate, knobs: seq<Op>)
    requires |c.store.slots| == MAX_SLOTS && c.m.state == Idle && !c.store.IsEmpty(i)
    ensures
      var c' := Dispatch(c, SlotKey, i, gate, knobs);
      c'.m.state == Playing && c'.store == MarkPlaying(c.store, i)
  {
  }

  lemma PlayingIff(w: World)
    requires Inv(w)
    ensures |w.core.store.slots| == MAX_SLOTS
    ensures w.core.m.state == Playing <==> w.core.store.playing >= 0
    ensures w.core.store.playing >= -1
  {
  }

  lemma FiredTied(g: Stage)
    requires Tied(g)
    ensures Tied(Fired(g))
  {
    hide Agrees, Recoverable, Stamped, Total, LeavingHolds, Inv;
    if Playback.Finishes(g.player, Shown(g)) {
      NextKeeps(g.world, PlayEnd);
      PlayingIff(Next(g.world, PlayEnd));
    }
  }

  lemma TakenTied(g: Stage, st: Step)
    requires Tied(g) && Enabled(g.world, st) && st != PlayEnd
    ensures Tied(Taken(g, st))
  {
    hide Inv, Next, Enabled;
    NextKeeps(g.world, st);
    PlayingIff(g.world);
    PlayingIff(Next(g.world, st));
    if g.world.core.m.state == Playing {
      PlayingSlotIsStable(g.world, st);
    } else {
      StartsOrElsewhere(g.world, st);
    }
  }

  lemma GoTied(g: Stage, c: Cue)
    requires Tied(g) && Able(g, c)
    ensures Tied(Go(g, c))
  {
    hide Inv, Next, Fired, Taken;
    match c {
      case Tick => FiredTied(g);
      case Keyed(e) =>
      case Other(st) => TakenTied(g, st);
    }
  }

  // ---- whole performances -------------------------------------------------------------------------------

  ghost predicate Possible(g: Stage, cues: seq<Cue>)
    decreases |cues|
  {
    cues == [] || (InStep(g) && Able(g, cues[0]) && Possible(Go(g, cues[0]), cues[1..]))
  }

  ghost function RunCues(g: Stage, cues: seq<Cue>): Stage
    requires Possible(g, cues)
    decreases |cues|
  {
    if cues == [] then g else RunCues(Go(g, cues[0]), cues[1..])
  }

  /** Something is playing before every cue of the run. */
  ghost predicate Sounding(g: Stage, cues: seq<Cue>)
    requires Possible(g, cues)
    decreases |cues|
  {
    cues == [] || (g.player.slot >= 0 && Sounding(Go(g, cues[0]), cues[1..]))
  }

  /** From boot, with the emitter as its constructor leaves it, the two stay in step for good. */
  lemma {:induction false} RunTied(g: Stage, cues: seq<Cue>)
    requires Tied(g) || (Booted(g.world) && g.player == Playback.Idle())
    requires Possible(g, cues)
    ensures Tied(RunCues(g, cues))
    decreases |cues|
  {
    hide Go, Able, Inv, Booted;
    if Booted(g.world) && g.player == Playback.Idle() {
      BootTied(g);
    }
    if cues != [] {
      GoTied(g, cues[0]);
      RunTied(Go(g, cues[0]), cues[1..]);
    }
  }

  lemma BootTied(g: Stage)
    requires Booted(g.world) && g.player == Playback.Idle()
    ensures Tied(g)
  {
    hide Inv;
    BootKeeps(g.world);
  }

  function MomentsOf(c: Cue): seq<Playback.Moment> {
    match c
    case Tick => [Playback.Fire]
    case Keyed(e) => [Playback.Foreign(e)]
    case Other(_) => []
  }

  /** What the emitter notices of a run. */
  function AllMoments(cues: seq<Cue>): seq<Playback.Moment> {
    if cues == [] then [] else MomentsOf(cues[0]) + AllMoments(cues[1..])
  }

  function WorldSteps(g: Stage, c: Cue): seq<Step>
    requires |g.world.core.store.slots| == MAX_SLOTS
  {
    match c
    case Tick => if Playback.Finishes(g.player, Shown(g)) then [PlayEnd] else []
    case Keyed(_) => []
    case Other(st) => [st]
  }

  ghost function AllSteps(g: Stage, cues: seq<Cue>): seq<Step>
    requires Possible(g, cues)
    decreases |cues|
  {
    if cues == [] then [] else WorldSteps(g, cues[0]) + AllSteps(Go(g, cues[0]), cues[1..])
  }

  lemma NoSteps(w: World)
    ensures Legal(w, []) && RunTo(w, []) == w
  {
  }

  lemma CueIsSteps(g: Stage, c: Cue)
    requires InStep(g) && Able(g, c)
    ensures Legal(g.world, WorldSteps(g, c)) && RunTo(g.world, WorldSteps(g, c)) == Go(g, c).world
  {
    hide Next, Legal, RunTo;
    NoSteps(g.world);
    match c {
      case Tick =>
        if Playback.Finishes(g.player, Shown(g)) {
          LastStep(g.world, PlayEnd);
        }
      case Keyed(e) =>
      case Other(st) => LastStep(g.world, st);
    }
  }

  lemma LastStep(w: World, st: Step)
    requires |w.core.store.slots| == MAX_SLOTS && Enabled(w, st)
    ensures Legal(w, [st]) && RunTo(w, [st]) == Next(w, st)
  {
    hide Next;
    assert [st][1..] == [];
  }

  /** A performance is a legal run of the firmware whose finishing fires are its PlayEnd steps. */
  lemma {:induction false} CuesAreRuns(g: Stage, cues: seq<Cue>)
    requires Possible(g, cues)
    ensures Legal(g.world, AllSteps(g, cues)) && RunTo(g.world, AllSteps(g, cues)) == RunCues(g, cues).world
    decreases |cues|
  {
    hide Go, WorldSteps, Legal, RunTo, Able;
    NoSteps(g.world);
    if cues != [] {
      CueIsSteps(g, cues[0]);
      CuesAreRuns(Go(g, cues[0]), cues[1..]);
      SystemModes.RunAppend(g.world, WorldSteps(g, cues[0]), AllSteps(Go(g, cues[0]), cues[1..]));
    }
  }

  /** The machine is idle again, and the last thing announced is the end of `slot`. */
  predicate Ended(w: World, slot: int) {
    && w.core.m.state == Idle && w.core.notes != []
    && w.core.notes[|w.core.notes| - 1] == Note(PlaybackFinished, slot, -1, Idle)
  }

  /** One cue, seen by the emitter and by the machine. */
  lemma CuePlays(g: Stage, c: Cue)
    requires Tied(g) && Able(g, c) && g.player.slot >= 0
    ensures
      var g' := Go(g, c);
      && Tied(g') && g'.player == Playback.Play(g.player, Shown(g), MomentsOf(c))
      && (if g'.player.slot >= 0 then g'.player.slot == g.player.slot && Shown(g') == Shown(g)
          else Ended(g'.world, g.player.slot))
  {
    hide Inv, Next, Fired, Taken, Ended, Playback.Step, Playback.Meet;
    GoTied(g, c);
    Playback.EmptyPlay(g.player, Shown(g));
    match c {
      case Tick =>
        Playback.PlayMore(g.player, Shown(g), [], Playback.Fire);
        assert [] + [Playback.Fire] == [Playback.Fire];
        TickPlays(g);
      case Keyed(e) =>
        Playback.PlayMore(g.player, Shown(g), [], Playback.Foreign(e));
        assert [] + [Playback.Foreign(e)] == [Playback.Foreign(e)];
        MeetKeepsSlot(g.player, e);
      case Other(st) => OtherPlays(g, st);
    }
  }

  lemma MeetKeepsSlot(p: Playback.Player, e: Event)
    ensures Playback.Meet(p, e).slot == p.slot
  {
  }

  lemma TickPlays(g: Stage)
    requires Tied(g) && g.player.slot >= 0
    ensures
      var g' := Fired(g);
      && g'.player == Playback.Step(g.player, Shown(g))
      && (if g'.player.slot >= 0 then g'.player.slot == g.player.slot && g'.world == g.world
          else Ended(g'.world, g.player.slot))
  {
    hide Inv;
  }

  lemma OtherPlays(g: Stage, st: Step)
    requires Tied(g) && g.player.slot >= 0 && Enabled(g.world, st) && st != PlayEnd
    ensures
      var g' := Taken(g, st);
      && g'.player == g.player && |g'.world.core.store.slots| == MAX_SLOTS && Shown(g') == Shown(g)
  {
    hide Inv, Next;
    PlayingSlotIsStable(g.world, st);
  }

  /** Until it is over, a performance is the emitter's own replay of the macro the slot showed at first. */
  lemma {:induction false} PerformancePlays(g: Stage, cues: seq<Cue>)
    requires Tied(g) && g.player.slot >= 0 && Possible(g, cues) && Sounding(g, cues)
    ensures
      var r := RunCues(g, cues);
      && Tied(r) && r.player == Playback.Play(g.player, Shown(g), AllMoments(cues))
      && (if r.player.slot >= 0 then r.player.slot == g.player.slot && Shown(r) == Shown(g)
          else Ended(r.world, g.player.slot))
    decreases |cues|
  {
    hide Tied, Go, Able, InStep, Shown, MomentsOf, Ended, Playback.Play;
    assert |g.world.core.store.slots| == MAX_SLOTS by { TiedSlots(g); }
    if cues == [] {
      Playback.EmptyPlay(g.player, Shown(g));
    } else {
      var g', rest := Go(g, cues[0]), cues[1..];
      CuePlays(g, cues[0]);
      Playback.PlayAppend(g.player, Shown(g), MomentsOf(cues[0]), AllMoments(rest));
      if g'.player.slot >= 0 {
        PerformancePlays(g', rest);
      } else {
        assert rest == [];
        Playback.EmptyPlay(g'.player, Shown(g));
      }
    }
  }

  lemma TiedSlots(g: Stage)
    requires Tied(g)
    ensures |g.world.core.store.slots| == MAX_SLOTS
  {
  }

  /** The stage right after the press that starts a playback. */
  lemma StartIsFresh(g: Stage, st: Step)
    requires Tied(g) && Enabled(g.world, st) && Starts(g.world, st)
    ensures
      var g' := Taken(g, st);
      && Tied(g') && Playback.Fresh(g'.player) && g'.player == Playback.Begin(g.player, st.slot)
      && |g'.world.core.store.slots| == MAX_SLOTS && Shown(g') == g.world.core.store.View(st.slot)
  {
    hide Agrees, Recoverable, Stamped, Total, LeavingHolds;
    TakenTied(g, st);
    StartMarks(g.world.core, st.slot, st.gate, st.knobs);
    StartsOrElsewhere(g.world, st);
  }

  /**
   * From the press of a slot key to the fire that ends playback, through any timer fires, foreign keys
   * and steps of the firmware: what is raised is what the slot showed when it was pressed, its markers
   * left out, then every captured key in order; each marker pauses for its own time; and then the
   * machine is idle and has said so.
   */
  lemma PerformanceIsMacroThenCaptured(g: Stage, st: Step, cues: seq<Cue>)
    requires Tied(g) && Enabled(g.world, st) && Starts(g.world, st)
    requires Possible(Taken(g, st), cues) && Sounding(Taken(g, st), cues)
    requires RunCues(Taken(g, st), cues).player.slot < 0
    ensures
      var r, macro := RunCues(Taken(g, st), cues), g.world.core.store.View(st.slot);
      && g.player.captured <= r.player.captured && r.player.ring == []
      && r.player.raised == g.player.raised + Playback.Sent(macro) + r.player.captured[|g.player.captured|..]
      && g.player.gaps <= r.player.gaps
      && Playback.Paced(macro, r.player.gaps[|g.player.gaps|..], |r.player.captured| - |g.player.captured|)
      && Ended(r.world, st.slot) && r.world.core.store.playing == -1
  {
    hide Inv, Taken, Ended, Playback.Play, Playback.Sent, Playback.Paced, Possible, Sounding, RunCues;
    StartIsFresh(g, st);
    PerformancePlays(Taken(g, st), cues);
    Playback.EndedIsDrained(Taken(g, st).player, g.world.core.store.View(st.slot), AllMoments(cues));
    Playback.PausesAreKept(Taken(g, st).player, g.world.core.store.View(st.slot), AllMoments(cues));
    PlayingIff(RunCues(Taken(g, st), cues).world);
  }

  // ---- the objects as they run --------------------------------------------------------------------------------

  ghost function Now(em: Playback.Emitter): Stage
    requires em.ring.Valid()
    reads em, em.ring, em.ring.cells, em.bubbled, em.machine, em.machine.store, em.machine.store.sink
  {
    Stage(em.machine.Here(), em.Value())
  }

  /** A step of the firmware; the mark a starting playback leaves reaches the emitter. */
  method TakeStep(em: Playback.Emitter, st: Step)
    requires em.Valid() && InStep(Now(em)) && Enabled(em.machine.Here(), st)
    modifies em.Repr(), em.machine.Repr(), em.machine.store.sink
    ensures em.Valid() && Now(em) == Taken(old(Now(em)), st)
  {
    hide Next;
    var starts := WillStart(em, st);
    em.machine.Take(st);
    if starts {
      em.Start(st.slot);
    }
  }

  method WillStart(em: Playback.Emitter, st: Step) returns (starts: bool)
    requires em.Valid()
    ensures |em.machine.store.model.slots| == MAX_SLOTS && starts == Starts(em.machine.Here(), st)
  {
    if !st.Press? || st.cmd != SlotKey || em.machine.state != Idle {
      return false;
    }
    var empty := em.machine.store.IsEmpty(st.slot);
    starts := !empty;
  }

  method TakeFire(em: Playback.Emitter)
    requires em.Valid() && InStep(Now(em))
    modifies em.Repr(), em.machine.Repr(), em.machine.store.sink
    ensures em.Valid() && Now(em) == Fired(old(Now(em)))
  {
    hide Playback.Step, PlayFinished;
    em.WorkOnce();
  }

  /** Any cue, taken by the running emitter and the machine it belongs to. */
  method TakeCue(em: Playback.Emitter, c: Cue)
    requires em.Valid() && InStep(Now(em)) && Able(Now(em), c)
    modifies em.Repr(), em.machine.Repr(), em.machine.store.sink
    ensures em.Valid() && Now(em) == Go(old(Now(em)), c)
  {
    hide Fired, Taken, Playback.Meet;
    match c {
      case Tick => TakeFire(em);
      case Keyed(e) => var _ := em.OnForeign(e);
      case Other(st) => TakeStep(em, st);
    }
  }
}
