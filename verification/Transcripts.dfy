/** What a recording writes down, event by event, stated on the events that were heard. */
module Transcripts {
  import opened Config
  import opened Render
  import opened MachineSpec
  import opened Recorder

  /** A key as recorded: itself, with every modifier of the live report folded onto it. */
  predicate Folded(k: Event, e: Event, report: bv8) {
    && k.usagePage == e.usagePage && k.keycode == e.keycode && k.pressed == e.pressed
    && k.explicitMods == e.explicitMods && k.reserved == 0
    && forall i :: 0 <= i < 8 ==> (HasMod(k.implicitMods, i) <==> HasMod(e.implicitMods, i) || HasMod(report, i))
  }

  /** A modifier as recorded: itself, the report left out. */
  predicate Verbatim(k: Event, e: Event) {
    && k.usagePage == e.usagePage && k.keycode == e.keycode && k.pressed == e.pressed
    && k.implicitMods == e.implicitMods && k.explicitMods == e.explicitMods && k.reserved == 0
  }

  /** The deferred press a released modifier is matched with. */
  function Match(t: Take, e: Event): nat { EntryOf(t.pending, e.keycode) }

  /** What one input writes into the draft. */
  ghost predicate Writes(t: Take, input: Input, chunk: seq<Event>)
    requires |t.core.store.slots| == MAX_SLOTS
  {
    var room := MAX_EVENTS - |t.core.store.draft|;
    if t.core.m.state != Recording then chunk == []
    else match input
      case Heard(e, report, _) =>
        if !IsModifierKey(e) then
          if room <= 0 then chunk == [] else |chunk| == 1 && Folded(chunk[0], e, report)
        else
          var i := Match(t, e);
          if e.pressed != 0 || i >= |t.pending| || t.pending[i].bracketed || room <= 0 then chunk == []
          else if room == 1 then chunk == [t.pending[i].press]
          else |chunk| == 2 && chunk[0] == t.pending[i].press && Verbatim(chunk[1], e)
      case DelayKey(ms, _) =>
        if room <= 0 then chunk == [] else chunk == [Event(0xFFFF, ms, 0, 0, 1, 0)]
      case ChainKey(i, _) =>
        var macro := t.core.store.View(i);
        if |macro| <= room then chunk == macro else chunk == []
      case CueDone(_) => chunk == []
  }

  lemma FoldBit(a: bv8, b: bv8, i: nat)
    requires i < 8
    ensures HasMod(a | b, i) <==> HasMod(a, i) || HasMod(b, i)
  {
  }

  lemma EffectiveFolds(e: Event, report: bv8)
    ensures if IsModifierKey(e) then Verbatim(Effective(e, report), e) else Folded(Effective(e, report), e, report)
  {
    hide HasMod;
    forall i | 0 <= i < 8
      ensures HasMod(e.implicitMods | report, i) <==> HasMod(e.implicitMods, i) || HasMod(report, i)
    {
      FoldBit(e.implicitMods, report, i);
    }
  }

  /** The events by which the draft has grown. */
  function Grown(t: Take, t': Take): seq<Event> {
    if |t'.core.store.draft| < |t.core.store.draft| then [] else t'.core.store.draft[|t.core.store.draft|..]
  }

  lemma ReleaseWrites(t: Take, e: Event, report: bv8, gate: Gate)
    requires |t.core.store.slots| == MAX_SLOTS && t.core.m.state == Recording && IsModifierKey(e) && e.pressed == 0
    requires |t.core.store.draft| <= MAX_EVENTS
    ensures
      var t' := Release(t, Effective(e, report), gate);
      && t'.core.store.draft == t.core.store.draft + Grown(t, t') && Writes(t, Heard(e, report, gate), Grown(t, t'))
      && t'.core.store.slots == t.core.store.slots && |t'.core.store.draft| <= MAX_EVENTS
  {
    hide RecordEvent, EntryOf, HasMod, Folded, Verbatim;
    var release := Effective(e, report);
    EffectiveFolds(e, report);
    var i := EntryOf(t.pending, release.keycode);
    if i < |t.pending| && !t.pending[i].bracketed {
      var p := t.pending[i];
      var freed := t.(pending := t.pending[i := p.(keycode := 0)]);
      RecordAppends(freed, p.press, gate);
      if !DraftFull(freed) {
        RecordAppends(Record(freed, p.press, gate), release, gate);
      }
    }
  }

  /** A key heard with room adds that key, its modifiers and those of the report, and nothing else. */
  lemma HeardWrites(t: Take, e: Event, report: bv8, gate: Gate)
    requires |t.core.store.slots| == MAX_SLOTS && t.core.m.state == Recording && |t.core.store.draft| <= MAX_EVENTS
    ensures
      var t' := Hear(t, e, report, gate);
      && t'.core.store.draft == t.core.store.draft + Grown(t, t') && Writes(t, Heard(e, report, gate), Grown(t, t'))
      && t'.core.store.slots == t.core.store.slots && |t'.core.store.draft| <= MAX_EVENTS
  {
    hide Record, Release, EntryOf, HasMod, Folded, Verbatim;
    EffectiveFolds(e, report);
    if !IsModifierKey(e) {
      RecordAppends(t.(pending := MarkBracketed(t.pending)), Effective(e, report), gate);
    } else if e.pressed == 0 {
      ReleaseWrites(t, e, report, gate);
    }
  }

  lemma ContinueWrites(t: Take, input: Input)
    requires |t.core.store.slots| == MAX_SLOTS && |t.core.store.draft| <= MAX_EVENTS
    ensures
      var t' := Continue(t, input);
      && t'.core.store.slots == t.core.store.slots && |t'.core.store.draft| <= MAX_EVENTS
      && t'.core.store.draft == t.core.store.draft + Grown(t, t') && Writes(t, input, Grown(t, t'))
  {
    hide Hear, Record, Folded, Verbatim, EntryOf, Dispatch, TypingFinished;
    if OnTake(t) {
      match input {
        case Heard(e, report, gate) =>
          if t.core.m.state == Recording {
            HeardWrites(t, e, report, gate);
          } else {
            DeafToKeys(t, e, report, gate);
          }
        case DelayKey(ms, gate) =>
          if t.core.m.state == Recording {
            RecordAppends(t, MakeDelay(ms), gate);
          }
        case ChainKey(i, gate) =>
          if t.core.m.state == Recording {
            ChainStore(t.core, i, gate);
          } else {
            DeafWhileTyping(t.core, i, gate);
          }
        case CueDone(gate) =>
      }
    }
  }

  lemma DeafToKeys(t: Take, e: Event, report: bv8, gate: Gate)
    requires |t.core.store.slots| == MAX_SLOTS && t.core.m.state != Recording
    ensures Hear(t, e, report, gate) == t
  {
  }

  lemma DeafWhileTyping(c: Core, i: int, gate: Gate)
    requires |c.store.slots| == MAX_SLOTS && c.m.state == TypingFeedback
    ensures Dispatch(c, SlotKey, i, gate, []) == c
  {
  }

  /** What a whole run of inputs writes, input by input. */
  ghost predicate Written(t: Take, inputs: seq<Input>, added: seq<Event>)
    requires |t.core.store.slots| == MAX_SLOTS
    decreases |inputs|
  {
    if inputs == [] then added == []
    else
      var t' := Continue(t, inputs[0]);
      var n := |t'.core.store.draft| - |t.core.store.draft|;
      && |t'.core.store.slots| == MAX_SLOTS && 0 <= n <= |added|
      && Writes(t, inputs[0], added[..n]) && Written(t', inputs[1..], added[n..])
  }

  /**
   * For any key stream, delay inserts and chaining, overflow included: the draft at the end is the draft
   * at the start followed by what each input writes in turn. Keys carry their own modifiers and those of
   * the live report, taps are their own press and release, delays their milliseconds.
   */
  lemma {:induction false} TakeIsWritten(t: Take, inputs: seq<Input>)
    requires |t.core.store.slots| == MAX_SLOTS && |t.core.store.draft| <= MAX_EVENTS
    ensures
      var r := RunTake(t, inputs);
      && t.core.store.draft <= r.core.store.draft
      && Written(t, inputs, r.core.store.draft[|t.core.store.draft|..])
    decreases |inputs|
  {
    hide Continue, Writes;
    if inputs != [] {
      var t', d := Continue(t, inputs[0]), t.core.store.draft;
      ContinueWrites(t, inputs[0]);
      TakeIsWritten(t', inputs[1..]);
      var r := RunTake(t', inputs[1..]).core.store.draft;
      var n := |t'.core.store.draft| - |d|;
      assert r[|d|..][..n] == t'.core.store.draft[|d|..];
      assert r[|d|..][n..] == r[|t'.core.store.draft|..];
    }
  }

  // ---- where taps come from ------------------------------------------------------------------------

  /** A modifier press heard in the run, as it is deferred. */
  ghost predicate HeardPress(inputs: seq<Input>, k: Event) {
    exists j :: 0 <= j < |inputs| && inputs[j].Heard? && inputs[j].e.pressed != 0 && Verbatim(k, inputs[j].e)
  }

  /** Every deferred press is one heard in `inputs`, or was deferred in `before`. */
  ghost predicate Remembered(pending: seq<Pending>, before: seq<Pending>, inputs: seq<Input>) {
    forall k :: 0 <= k < |pending| && pending[k].keycode != 0 ==>
      HeardPress(inputs, pending[k].press) || exists m :: 0 <= m < |before| && before[m].press == pending[k].press
  }

  lemma HearRemembers(t: Take, input: Input, before: seq<Pending>, all: seq<Input>, j: nat)
    requires |t.core.store.slots| == MAX_SLOTS && Remembered(t.pending, before, all)
    requires j < |all| && all[j] == input && input.Heard?
    ensures Remembered(Hear(t, input.e, input.report, input.gate).pending, before, all)
  {
    hide Record, EntryOf, Verbatim;
    var e := input.e;
    EffectiveFolds(e, input.report);
    if t.core.m.state == Recording && IsModifierKey(e) && e.pressed != 0 {
      assert HeardPress(all, Effective(e, input.report));
    } else if t.core.m.state == Recording && IsModifierKey(e) {
      ReleasePending(t, Effective(e, input.report), input.gate);
    } else if t.core.m.state == Recording {
      RecordPending(t.(pending := MarkBracketed(t.pending)), Effective(e, input.report), input.gate);
    }
  }

  lemma RecordPending(t: Take, e: Event, gate: Gate)
    requires |t.core.store.slots| == MAX_SLOTS
    ensures Record(t, e, gate).pending == t.pending
  {
  }

  /** A release forgets one deferred press at most. */
  lemma ReleasePending(t: Take, release: Event, gate: Gate)
    requires |t.core.store.slots| == MAX_SLOTS
    ensures
      var t' := Release(t, release, gate);
      && |t'.pending| == |t.pending|
      && forall k :: 0 <= k < |t.pending| ==> t'.pending[k] == t.pending[k] || t'.pending[k].keycode == 0
  {
    hide RecordEvent, EntryOf;
  }

  lemma ContinueRemembers(t: Take, before: seq<Pending>, all: seq<Input>, j: nat)
    requires |t.core.store.slots| == MAX_SLOTS && Remembered(t.pending, before, all) && j < |all|
    ensures Remembered(Continue(t, all[j]).pending, before, all)
  {
    hide Hear, Remembered, RecordEvent, Dispatch, TypingFinished;
    if OnTake(t) && all[j].Heard? {
      HearRemembers(t, all[j], before, all, j);
    }
  }

  lemma {:induction false} RunRemembers(t: Take, before: seq<Pending>, all: seq<Input>, n: nat)
    requires |t.core.store.slots| == MAX_SLOTS && |t.core.store.draft| <= MAX_EVENTS
    requires Remembered(t.pending, before, all) && n <= |all|
    ensures Remembered(RunTake(t, all[n..]).pending, before, all)
    decreases |all| - n
  {
    hide Continue, Remembered, Writes;
    if n < |all| {
      ContinueRemembers(t, before, all, n);
      ContinueWrites(t, all[n]);
      assert all[n..][1..] == all[n + 1..];
      RunRemembers(Continue(t, all[n]), before, all, n + 1);
    }
  }

  /** In a take that begins with nothing deferred, every press a tap can flush is one that was heard. */
  lemma DeferredPressesWereHeard(t: Take, inputs: seq<Input>, k: nat)
    requires |t.core.store.slots| == MAX_SLOTS && |t.core.store.draft| <= MAX_EVENTS && t.pending == NoPending()
    requires k < |RunTake(t, inputs).pending| && RunTake(t, inputs).pending[k].keycode != 0
    ensures HeardPress(inputs, RunTake(t, inputs).pending[k].press)
  {
    hide RunTake, HeardPress;
    assert inputs[0..] == inputs;
    RunRemembers(t, [], inputs, 0);
  }
}
