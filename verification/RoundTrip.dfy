/** A delay on its way from the delay binding through a take, a slot and a playback. */
module RoundTrip {
  import opened Config
  import opened StoreSpec
  import opened MachineSpec
  import opened System
  import opened SystemProofs
  import opened SystemTheorems
  import opened SystemModes
  import opened Diagram
  import opened Performance
  import Recordings

  /** The firmware after the delay binding was pressed in a recording with room. */
  lemma DelayIsRecorded(d: Recordings.Desk, ms: U16, gate: Gate)
    requires Inv(d.world) && d.world.core.m.state == Recording && |d.world.core.store.draft| < MAX_EVENTS
    ensures |d.world.core.store.slots| == MAX_SLOTS
    ensures
      var c, w := d.world.core, Recordings.Go(d, Recordings.DelayPress(ms, gate)).world;
      && Inv(w) && w.core == c.(store := c.store.(draft := c.store.draft + [MakeDelay(ms)]))
  {
    hide Body;
    BodySlots(d.world);
    NextKeeps(d.world, Key(MakeDelay(ms), gate));
  }

  /** A stage whose firmware is idle and whose emitter rests. */
  lemma RestIsTied(g: Stage)
    requires Inv(g.world) && g.world.core.m.state == Idle
    requires g.player.slot == -1 && g.player.ring == [] && |g.player.bubbled| == Playback.BUBBLED_ENTRIES
    ensures Tied(g) && InStep(g)
  {
    hide Inv;
    PlayingIff(g.world);
    RestsAtIdle(g.world);
  }

  lemma RestsAtIdle(w: World)
    requires Inv(w) && w.core.m.state == Idle
    ensures w.core.store.playing == -1
  {
  }

  /**
   * Press the delay binding in a recording, stop, save into a free slot, play the slot to the end, through
   * whatever happens meanwhile: where the marker stands the playback pauses for the tap delay plus its
   * milliseconds.
   */
  lemma DelaySurvives(
      d: Recordings.Desk, ms: U16, gate: Gate, i: int, stop: Input, save: Input,
      player: Playback.Player, start: Step, cues: seq<Cue>)
    requires Inv(d.world) && d.world.core.m.state == Recording && |d.world.core.store.draft| < MAX_EVENTS
    requires |d.world.core.store.slots| == MAX_SLOTS && IsSlot(i) && d.world.core.store.IsEmpty(i)
    requires IsNvs(i) ==> |d.world.core.store.draft| + 1 <= MAX_EVENTS_NVS
    requires |d.world.core.store.draft| + 1 + Total(d.world.core.store.slots) <= ARENA_EVENTS
    requires IsPress(stop, Stp) && IsPress(save, SlotKey) && save.step.slot == i
    requires player.slot == -1 && player.ring == [] && |player.bubbled| == Playback.BUBBLED_ENTRIES
    requires start.Press? && start.cmd == SlotKey && start.slot == i
    requires forall k :: 0 <= k < |start.knobs| ==> start.knobs[k].SaveKnobs?
    ensures
      var w := Recordings.Go(d, Recordings.DelayPress(ms, gate)).world;
      && Drainable(w, [stop, save]) && Legal(w, LoudSteps(w, [stop, save]))
      && var g := Stage(RunTo(w, LoudSteps(w, [stop, save])), player);
         && Tied(g) && Enabled(g.world, start) && Starts(g.world, start)
         && (Possible(Taken(g, start), cues) && Sounding(Taken(g, start), cues)
             && RunCues(Taken(g, start), cues).player.slot < 0 ==>
               var gaps := RunCues(Taken(g, start), cues).player.gaps;
               var k := |player.gaps| + |d.world.core.store.draft|;
               k < |gaps| && gaps[k] == TAP_DELAY + ms)
  {
    hide Inv, Tied, Total, LoudSteps, Legal, RunTo, Drainable, Possible, Sounding, RunCues, Taken;
    DelayIsRecorded(d, ms, gate);
    var w := Recordings.Go(d, Recordings.DelayPress(ms, gate)).world;
    TakeIsSaved(w, i, stop, save);
    RunKeeps(w, LoudSteps(w, [stop, save]));
    var g := Stage(RunTo(w, LoudSteps(w, [stop, save])), player);
    RestIsTied(g);
    SavedIsThere(g.world, i, w.core.store.draft);
    if Possible(Taken(g, start), cues) && Sounding(Taken(g, start), cues)
       && RunCues(Taken(g, start), cues).player.slot < 0 {
      PerformanceIsMacroThenCaptured(g, start, cues);
      var macro, n := w.core.store.draft, |d.world.core.store.draft|;
      assert macro[n] == MakeDelay(ms);
      assert RunCues(Taken(g, start), cues).player.gaps[|player.gaps|..][n] == TAP_DELAY + ms;
    }
  }

  lemma SavedIsThere(w: World, i: int, macro: seq<Event>)
    requires |w.core.store.slots| == MAX_SLOTS && w.core.store.View(i) == macro != []
    ensures !w.core.store.IsEmpty(i)
  {
  }
}
