/** The whole persistence story: what a power cut, at rest or not, brings back. */
module Reboot {
  import opened Config
  import opened StoreSpec
  import opened StoreLaws
  import opened Storage
  import opened MachineSpec
  import opened System
  import opened SystemProofs
  import opened SystemTheorems
  import opened Codec

  /** Only NVS slots have entries. */
  ghost predicate NvsOnly(f: Flash) { forall i :: i in f ==> IsNvs(i) }

  /** Every entry is a macro a flash slot can hold. */
  ghost predicate Entries(f: Flash) { Storable(f) && forall i :: i in f ==> f[i] != [] }

  lemma BootEntries(w: World)
    requires Booted(w) && NvsOnly(w.flash)
    ensures Entries(w.flash)
  {
    hide Total;
    forall i | i in w.flash
      ensures 0 < |w.flash[i]| <= MAX_EVENTS_NVS
    {
      assert Lookup(w.flash, i) == Expect(w.core.store, i);
    }
  }

  lemma WorkEntries(w: World, ok: bool)
    requires Inv(w) && Entries(w.flash) && w.core.queue != []
    ensures Entries(WorkStep(w, ok).flash)
  {
    hide Agrees, Recoverable, Total, LeavingHolds, Lone;
  }

  lemma NextEntries(w: World, st: Step)
    requires Inv(w) && Entries(w.flash) && Enabled(w, st)
    ensures Entries(Next(w, st).flash)
  {
    hide Agrees, Recoverable, Stamped, Total, LeavingHolds, Dispatch, RecordEvent, TypingFinished, DeliverAsync;
    hide Entries;
    if st.Work? {
      WorkEntries(w, st.ok);
    }
  }

  lemma {:induction false} RunEntries(w: World, steps: seq<Step>)
    requires Inv(w) && Entries(w.flash) && Legal(w, steps)
    ensures Entries(RunTo(w, steps).flash)
    decreases |steps|
  {
    hide Inv, Entries;
    if steps != [] {
      NextKeeps(w, steps[0]);
      NextEntries(w, steps[0]);
      RunEntries(Next(w, steps[0]), steps[1..]);
    }
  }

  // ---- the restored firmware ------------------------------------------------------------------------

  /** The firmware after a boot that restored `r` from `f`. */
  function Rebooted(r: Store, f: Flash): World {
    World(Core(INITIAL_MACHINE, r, [], false, [], [], {}, {}), f, [])
  }

  lemma RestoredIsBooted(t: Store, device: string, f: Flash, order: seq<int>)
    requires |t.slots| == MAX_SLOTS && t.playing == -1 && Entries(f) && Readable(device, f)
    requires forall i :: i in order <==> i in f
    ensures forall i :: i in order ==> IsNvs(i) && i in f && |f[i]| <= MAX_EVENTS_NVS && |Codec.SlotKey(device, i)| >= 3
    ensures
      var (r, ok) := RestoreAll(Reset(t), device, f, order);
      && Fragment(r, f) && (ok <==> Total(FlashStore(f).slots) <= ARENA_EVENTS)
      && (ok && t.Valid() ==> Booted(Rebooted(r, f)))
      && (ok ==> forall i :: IsSlot(i) ==> r.View(i) == if i in f then f[i] else [])
  {
    hide Total, RestoreAll, Codec.SlotKey, Readable;
    AllLoadIffTheyFit(t, device, f, order);
    RestoreKeepsDraft(Reset(t), device, f, order);
    var (r, ok) := RestoreAll(Reset(t), device, f, order);
    if ok {
      forall i | IsNvs(i)
        ensures Lookup(f, i) == Expect(r, i)
      {
        assert r.View(i) == if i in f then f[i] else [];
      }
    }
  }

  lemma {:induction false} RestoreKeepsDraft(t: Store, device: string, f: Flash, order: seq<int>)
    requires |t.slots| == MAX_SLOTS
    requires forall i :: i in order ==>
               IsNvs(i) && i in f && |f[i]| <= MAX_EVENTS_NVS && |Codec.SlotKey(device, i)| >= 3
    ensures RestoreAll(t, device, f, order).0.draft == t.draft
  {
    hide Codec.SlotKey, Encode, Decode, ParseSlot, MatchDevice, Total;
    if order != [] {
      RestoreKeepsDraft(t, device, f, order[..|order| - 1]);
    }
  }

  // ---- power cuts -------------------------------------------------------------------------------------

  lemma {:induction false} UnconcernedFinal(f: Flash, q: seq<Op>, i: int)
    requires !Concerns(q, i)
    ensures Final(f, q, i) == Lookup(f, i)
  {
    if q != [] {
      UnconcernedFinal(f, q[..|q| - 1], i);
    }
  }

  /** Nothing about slot `i` is on its way to flash, and nothing about it was refused or failed. */
  predicate AtPeace(w: World, i: int) {
    IsNvs(i) && i !in w.core.lost && i != w.core.m.postSave && !Concerns(w.core.queue, i)
  }

  lemma PeacefulAgrees(w: World, i: int)
    requires Inv(w) && AtPeace(w, i)
    ensures |w.core.store.slots| == MAX_SLOTS && Lookup(w.flash, i) == Expect(w.core.store, i)
  {
    hide Final, Concerns, Recoverable, Stamped, Total;
    UnconcernedFinal(w.flash, w.core.queue, i);
  }

  /**
   * Cut the power at any point of any run. Restoring what flash holds then, in any order, shows in each
   * slot its entry or nothing; all entries load exactly when together they fit the pool; and if they do,
   * the firmware has booted as the run theorems demand, and every slot about which nothing was on its
   * way, refused or failed shows what it showed before.
   */
  lemma PowerCutRestores(w0: World, steps: seq<Step>, t: Store, device: string, order: seq<int>)
    requires Booted(w0) && NvsOnly(w0.flash) && Legal(w0, steps)
    requires |t.slots| == MAX_SLOTS && t.playing == -1 && Readable(device, RunTo(w0, steps).flash)
    requires forall i :: i in order <==> i in RunTo(w0, steps).flash
    ensures forall i :: i in order ==>
      IsNvs(i) && |RunTo(w0, steps).flash[i]| <= MAX_EVENTS_NVS && |Codec.SlotKey(device, i)| >= 3
    ensures
      var w := RunTo(w0, steps);
      var (r, ok) := RestoreAll(Reset(t), device, w.flash, order);
      && Fragment(r, w.flash) && (ok <==> Total(FlashStore(w.flash).slots) <= ARENA_EVENTS)
      && |w.core.store.slots| == MAX_SLOTS
      && (ok && t.Valid() ==> Booted(Rebooted(r, w.flash)) && NvsOnly(Rebooted(r, w.flash).flash))
      && (ok ==> forall i :: AtPeace(w, i) ==> r.View(i) == w.core.store.View(i))
  {
    hide Agrees, Recoverable, Stamped, Total, LeavingHolds, RestoreAll, Legal, RunTo, Codec.SlotKey, Readable, Concerns;
    BootKeeps(w0);
    BootEntries(w0);
    RunKeeps(w0, steps);
    RunEntries(w0, steps);
    var w := RunTo(w0, steps);
    RestoredIsBooted(t, device, w.flash, order);
    var (r, ok) := RestoreAll(Reset(t), device, w.flash, order);
    if ok {
      forall i | AtPeace(w, i)
        ensures r.View(i) == w.core.store.View(i)
      {
        PeacefulAgrees(w, i);
        assert r.View(i) == if i in w.flash then w.flash[i] else [];
      }
    }
  }

  /**
   * At rest with nothing refused or failed, everything loads: the pool held it all before. The restored
   * firmware has booted, so the next session starts where the run theorems do.
   */
  lemma PowerCycleKeepsMacros(w0: World, steps: seq<Step>, t: Store, device: string, order: seq<int>)
    requires Booted(w0) && NvsOnly(w0.flash) && Legal(w0, steps)
    requires AtRest(RunTo(w0, steps)) && RunTo(w0, steps).core.lost == {}
    requires |t.slots| == MAX_SLOTS && t.playing == -1 && Readable(device, RunTo(w0, steps).flash)
    requires forall i :: i in order <==> i in RunTo(w0, steps).flash
    ensures forall i :: i in order ==>
      IsNvs(i) && |RunTo(w0, steps).flash[i]| <= MAX_EVENTS_NVS && |Codec.SlotKey(device, i)| >= 3
    ensures
      var w := RunTo(w0, steps);
      var (r, ok) := RestoreAll(Reset(t), device, w.flash, order);
      && ok && |r.slots| == |w.core.store.slots| == MAX_SLOTS && (t.Valid() ==> Booted(Rebooted(r, w.flash)))
      && forall i :: IsNvs(i) ==> r.View(i) == w.core.store.View(i)
  {
    hide Agrees, Recoverable, Stamped, Total, LeavingHolds, RestoreAll, Legal, RunTo, Codec.SlotKey, Readable, Booted;
    PowerCutRestores(w0, steps, t, device, order);
    BootKeeps(w0);
    BootEntries(w0);
    RunKeeps(w0, steps);
    RunEntries(w0, steps);
    var w := RunTo(w0, steps);
    RestFits(w);
    assert forall i :: IsNvs(i) ==> AtPeace(w, i);
  }

  lemma RestFits(w: World)
    requires Inv(w) && AtRest(w) && w.core.lost == {} && Entries(w.flash)
    ensures Total(FlashStore(w.flash).slots) <= ARENA_EVENTS
  {
    hide Total, Recoverable, Stamped, Final;
    forall i | 0 <= i < MAX_SLOTS
      ensures |FlashStore(w.flash).slots[i].events| <= |w.core.store.slots[i].events|
    {
      if i in w.flash {
        assert AtPeace(w, i);
        PeacefulAgrees(w, i);
        assert Lookup(w.flash, i) == Expect(w.core.store, i);
      }
    }
    TotalMonotone(FlashStore(w.flash).slots, w.core.store.slots);
  }

  // ---- a move cut in half -----------------------------------------------------------------------------

  /** One more entry weighs what its macro weighs. */
  lemma OneMoreEntry(f: Flash, i: int, events: seq<Event>)
    requires IsNvs(i) && i !in f
    ensures Total(FlashStore(f[i := events]).slots) == Total(FlashStore(f).slots) + |events|
  {
    hide Total;
    SizesFit();
    var s := FlashStore(f);
    TotalUpdate(s.slots, i, Slot(events, false, 0));
    assert FlashStore(f[i := events]).slots == s.slots[i := Slot(events, false, 0)];
  }

  /**
   * A move whose save ran and whose delete did not leaves the macro under both keys. All entries load
   * exactly when the pool has room for the second copy beside everything else flash holds.
   */
  lemma CutMoveLoadsIff(w: World, src: int, dst: int, ok: bool, t: Store, device: string, order: seq<int>)
    requires Inv(w) && AtRest(w) && w.core.lost == {} && Entries(w.flash)
    requires |w.core.store.slots| == MAX_SLOTS && IsNvs(src) && IsNvs(dst) && src != dst
    requires !w.core.store.IsEmpty(src) && w.core.store.IsEmpty(dst)
    requires |t.slots| == MAX_SLOTS && t.playing == -1
    requires
      var cut := w.flash[dst := w.core.store.View(src)];
      Readable(device, cut) && forall i :: i in order <==> i in cut
    ensures
      var cut := w.flash[dst := w.core.store.View(src)];
      var o := Move(w.core.store, [], src, dst);
      && o.queue != [] && Storage.Work(Backend(o.queue, w.flash, []), true).flash == cut
      && Lookup(cut, src) == Lookup(cut, dst) == Present(w.core.store.View(src))
    ensures forall i :: i in order ==>
      var cut := w.flash[dst := w.core.store.View(src)];
      i in cut && IsNvs(i) && |cut[i]| <= MAX_EVENTS_NVS && |Codec.SlotKey(device, i)| >= 3
    ensures
      var cut := w.flash[dst := w.core.store.View(src)];
      RestoreAll(Reset(t), device, cut, order).1
      <==> Total(FlashStore(w.flash).slots) + |w.core.store.View(src)| <= ARENA_EVENTS
  {
    hide Total, Codec.SlotKey, RestoreAll, Readable, Recoverable, Stamped, LeavingHolds;
    var cut := w.flash[dst := w.core.store.View(src)];
    assert AtPeace(w, src) && AtPeace(w, dst);
    PeacefulAgrees(w, src);
    PeacefulAgrees(w, dst);
    OneMoreEntry(w.flash, dst, w.core.store.View(src));
    AllLoadIffTheyFit(t, device, cut, order);
  }

  // ---- the settings follow flash --------------------------------------------------------------------------

  /** The settings after a run, its worker steps writing to them by key. */
  ghost function SettingsAfter(
      raw: map<string, seq<U8>>, device: string, w: World, steps: seq<Step>): map<string, seq<U8>>
    requires Inv(w) && Legal(w, steps)
    decreases |steps|
  {
    if steps == [] then raw
    else
      NextKeeps(w, steps[0]);
      HeadIsNvs(w);
      var raw' := if steps[0].Work? then Written(raw, device, w.core.queue[0], steps[0].ok) else raw;
      SettingsAfter(raw', device, Next(w, steps[0]), steps[1..])
  }

  lemma HeadIsNvs(w: World)
    requires Inv(w)
    ensures w.core.queue != [] && !w.core.queue[0].SaveKnobs? ==> IsNvs(w.core.queue[0].slot)
  {
    hide Agrees, Recoverable, Total, Lone;
  }

  lemma StepMirrors(raw: map<string, seq<U8>>, device: string, w: World, st: Step)
    requires Inv(w) && Enabled(w, st) && Mirrors(raw, device, w.flash) && (AllKeysFit(device) || NVS_SLOTS <= 1)
    ensures w.core.queue != [] && !w.core.queue[0].SaveKnobs? ==> IsNvs(w.core.queue[0].slot)
    ensures
      var raw' := if st.Work? then Written(raw, device, w.core.queue[0], st.ok) else raw;
      |w.core.store.slots| == MAX_SLOTS && Mirrors(raw', device, Next(w, st).flash)
  {
    hide Agrees, Recoverable, Stamped, Total, Dispatch, RecordEvent, TypingFinished, DeliverAsync;
    hide Mirrors, AllKeysFit, Written;
    HeadIsNvs(w);
    if st.Work? {
      WorkMirrors(raw, device, Backend(w.core.queue, w.flash, w.completions), st.ok);
    }
  }

  /** Over whole runs flash by slot is the settings by key, for a device whose keys are not cut off. */
  lemma {:induction false} SettingsMirrorFlash(raw: map<string, seq<U8>>, device: string, w: World, steps: seq<Step>)
    requires Inv(w) && Legal(w, steps) && Mirrors(raw, device, w.flash) && (AllKeysFit(device) || NVS_SLOTS <= 1)
    ensures Mirrors(SettingsAfter(raw, device, w, steps), device, RunTo(w, steps).flash)
    decreases |steps|
  {
    hide Inv, Mirrors, Written, AllKeysFit, Next;
    if steps != [] {
      NextKeeps(w, steps[0]);
      StepMirrors(raw, device, w, steps[0]);
      var raw' := if steps[0].Work? then Written(raw, device, w.core.queue[0], steps[0].ok) else raw;
      SettingsMirrorFlash(raw', device, Next(w, steps[0]), steps[1..]);
    }
  }
}
