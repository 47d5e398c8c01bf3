/**
 * The recording filter of behavior_dynamic_macro.c: modifiers are folded onto the keys they bracket,
 * and a bare modifier is kept only as a lone tap, decided when it is released.
 */
module Recorder {
  import opened Config
  import opened StoreSpec
  import opened Render
  import opened MachineSpec
  import opened System
  import MacroMachine

  const PENDING_ENTRIES: nat := 8

  /** A bare modifier press whose fate is open; keycode 0 marks a free entry. */
  datatype Pending = Pending(keycode: int, bracketed: bool, press: Event)

  const FREE_ENTRY: Pending := Pending(0, false, NO_EVENT)

  datatype Take = Take(core: Core, pending: seq<Pending>)

  function NoPending(): seq<Pending> { seq(PENDING_ENTRIES, _ => FREE_ENTRY) }

  // ---- the pending buffer ---------------------------------------------------------------------

  function Bracket(p: Pending): Pending { if p.keycode != 0 then p.(bracketed := true) else p }

  function MarkBracketed(pending: seq<Pending>): (r: seq<Pending>)
    ensures |r| == |pending|
  {
    seq(|pending|, k requires 0 <= k < |pending| => Bracket(pending[k]))
  }

  /** The first entry with this keycode, or the end. */
  function EntryOf(pending: seq<Pending>, keycode: int): (i: nat)
    ensures i <= |pending| && (i < |pending| ==> pending[i].keycode == keycode)
    ensures forall j :: 0 <= j < i ==> pending[j].keycode != keycode
  {
    if pending == [] || pending[0].keycode == keycode then 0 else 1 + EntryOf(pending[1..], keycode)
  }

  /** Defer the verdict on a press; a full buffer forgets it. */
  function Defer(pending: seq<Pending>, press: Event): (r: seq<Pending>)
    ensures |r| == |pending|
  {
    var i := EntryOf(pending, 0);
    if i < |pending| then pending[i := Pending(press.keycode, false, press)] else pending
  }

  // ---- what the listener does -----------------------------------------------------------------

  /** The keystroke a key event amounts to, given the modifiers of the live report. */
  function Effective(e: Event, report: bv8): Event {
    if IsModifierKey(e) then e.(reserved := 0) else e.(implicitMods := e.implicitMods | report, reserved := 0)
  }

  function Record(t: Take, e: Event, gate: Gate): Take
    requires |t.core.store.slots| == MAX_SLOTS
  {
    t.(core := RecordEvent(t.core, e, gate))
  }

  predicate DraftFull(t: Take) { |t.core.store.draft| >= MAX_EVENTS }

  /** A bare modifier went up: a lone tap is flushed as press and release, anything else dropped. */
  function Release(t: Take, release: Event, gate: Gate): Take
    requires |t.core.store.slots| == MAX_SLOTS
  {
    var i := EntryOf(t.pending, release.keycode);
    if i == |t.pending| then t
    else
      var p := t.pending[i];
      var freed := t.(pending := t.pending[i := p.(keycode := 0)]);
      if p.bracketed then freed
      else if DraftFull(freed) then Record(freed, p.press, gate)
      else Record(Record(freed, p.press, gate), release, gate)
  }

  function Hear(t: Take, e: Event, report: bv8, gate: Gate): Take
    requires |t.core.store.slots| == MAX_SLOTS
  {
    var rec := Effective(e, report);
    if t.core.m.state != Recording then t
    else if !IsModifierKey(e) then Record(t.(pending := MarkBracketed(t.pending)), rec, gate)
    else if e.pressed != 0 then t.(pending := Defer(t.pending, rec))
    else Release(t, rec, gate)
  }

  // ---- takes ------------------------------------------------------------------------------------

  /** What can happen between REC and the end of a take. */
  datatype Input =
    | Heard(e: Event, report: bv8, gate: Gate)
    | DelayKey(ms: U16, gate: Gate)
    | ChainKey(slot: int, gate: Gate)
    | CueDone(gate: Gate)

  /** Still recording, possibly while a chain cue types. */
  predicate OnTake(t: Take) {
    t.core.m.state == Recording ||
    (t.core.m.state == TypingFeedback && t.core.m.returnState == Recording && t.core.m.postSave < 0)
  }

  function Continue(t: Take, input: Input): Take
    requires |t.core.store.slots| == MAX_SLOTS
  {
    if !OnTake(t) then t
    else match input
      case Heard(e, report, gate) => Hear(t, e, report, gate)
      case DelayKey(ms, gate) => if t.core.m.state != Recording then t else Record(t, MakeDelay(ms), gate)
      case ChainKey(i, gate) => t.(core := Dispatch(t.core, SlotKey, i, gate, []))
      case CueDone(gate) => if t.core.m.state != TypingFeedback then t else t.(core := TypingFinished(t.core, gate))
  }

  /** Every modifier event is half of an adjacent press and release of one key. */
  predicate Paired(events: seq<Event>) {
    var n := |events|;
    n == 0 ||
    (if !IsModifierKey(events[n - 1]) then Paired(events[..n - 1])
     else n >= 2 && Tap(events[n - 2], events[n - 1]) && Paired(events[..n - 2]))
  }

  predicate Tap(press: Event, release: Event) {
    && IsModifierKey(press) && IsModifierKey(release) && press.keycode == release.keycode
    && press.pressed != 0 && release.pressed == 0
  }

  /** The events that are not bare modifiers. */
  function Keys(events: seq<Event>): seq<Event> {
    if events == [] then []
    else Keys(events[..|events| - 1]) + if IsModifierKey(events[|events| - 1]) then [] else [events[|events| - 1]]
  }

  /** Deferred presses are bare modifier presses under their own keycode. */
  predicate Deferred(pending: seq<Pending>) {
    forall k :: 0 <= k < |pending| && pending[k].keycode != 0 ==>
      IsModifierKey(pending[k].press) && pending[k].press.pressed != 0 && pending[k].press.keycode == pending[k].keycode
  }

  lemma {:induction false} PairedJoin(a: seq<Event>, b: seq<Event>)
    requires Paired(a) && Paired(b)
    ensures Paired(a + b)
  {
    var n := |b|;
    if n == 0 {
      assert a + b == a;
    } else if !IsModifierKey(b[n - 1]) {
      assert (a + b)[..|a + b| - 1] == a + b[..n - 1];
      PairedJoin(a, b[..n - 1]);
    } else {
      assert (a + b)[..|a + b| - 2] == a + b[..n - 2];
      PairedJoin(a, b[..n - 2]);
    }
  }

  lemma {:induction false} PairedRest(a: seq<Event>, b: seq<Event>)
    requires Paired(a) && Paired(a + b)
    ensures Paired(b)
  {
    var n := |b|;
    if n > 0 && !IsModifierKey(b[n - 1]) {
      assert (a + b)[..|a + b| - 1] == a + b[..n - 1];
      PairedRest(a, b[..n - 1]);
    } else if n > 0 {
      assert n >= 2;
      assert (a + b)[..|a + b| - 2] == a + b[..n - 2];
      PairedRest(a, b[..n - 2]);
    }
  }

  lemma {:induction false} KeysJoin(a: seq<Event>, b: seq<Event>)
    ensures Keys(a + b) == Keys(a) + Keys(b)
  {
    if b == [] {
      assert a + b == a;
    } else {
      assert (a + b)[..|a + b| - 1] == a + b[..|b| - 1];
      KeysJoin(a, b[..|b| - 1]);
    }
  }

  /** A take in good order: its draft holds no modifier down. */
  ghost predicate Orderly(t: Take) {
    |t.core.store.slots| == MAX_SLOTS && Deferred(t.pending) && Paired(t.core.store.draft)
  }

  /** What one input adds to the keys of the take. */
  function Added(t: Take, input: Input): seq<Event>
    requires |t.core.store.slots| == MAX_SLOTS
  {
    if t.core.m.state != Recording then []
    else match input
      case Heard(e, report, _) => if IsModifierKey(e) then [] else [Effective(e, report)]
      case DelayKey(ms, _) => [MakeDelay(ms)]
      case ChainKey(i, _) => if DraftChain(t.core.store, i).1 == Ok then Keys(t.core.store.View(i)) else []
      case CueDone(_) => []
  }

  lemma OverflowEndsTake(c: Core, gate: Gate)
    requires |c.store.slots| == MAX_SLOTS && c.m.state == Recording
    ensures
      var c' := Dispatch(c, Overflow, 0, gate, []);
      c'.m.state != Recording && !(c'.m.state == TypingFeedback && c'.m.returnState == Recording) && c'.store == c.store
  {
  }

  /** Recording one event either appends it or ends the take. */
  lemma RecordAppends(t: Take, e: Event, gate: Gate)
    requires |t.core.store.slots| == MAX_SLOTS && t.core.m.state == Recording
    ensures
      var t' := Record(t, e, gate);
      && t'.pending == t.pending && t'.core.store.slots == t.core.store.slots
      && (if DraftFull(t) then !OnTake(t') && t'.core.store.draft == t.core.store.draft
          else
            && t'.core == t.core.(store := t'.core.store)
            && t'.core.store == t.core.store.(draft := t.core.store.draft + [e]))
  {
    hide Dispatch;
    OverflowEndsTake(t.core, gate);
  }

  /** A macro about to join the draft holds no modifier down. */
  predicate ChainIsPaired(t: Take, input: Input)
    requires |t.core.store.slots| == MAX_SLOTS
  {
    input.ChainKey? && t.core.m.state == Recording && DraftChain(t.core.store, input.slot).1 == Ok ==>
      Paired(t.core.store.View(input.slot))
  }

  /** What one input keeps, while it does not end the take. */
  ghost predicate Kept(t: Take, t': Take, added: seq<Event>)
    requires |t.core.store.slots| == MAX_SLOTS
  {
    && |t'.core.store.slots| == MAX_SLOTS
    && (OnTake(t') ==> Orderly(t') && Keys(t'.core.store.draft) == Keys(t.core.store.draft) + added)
  }

  lemma AppendKey(draft: seq<Event>, e: Event)
    requires !IsModifierKey(e)
    ensures Paired(draft) ==> Paired(draft + [e])
    ensures Keys(draft + [e]) == Keys(draft) + [e]
  {
    assert (draft + [e])[..|draft|] == draft;
  }

  lemma AppendTap(draft: seq<Event>, press: Event, release: Event)
    requires Tap(press, release)
    ensures Paired(draft) ==> Paired(draft + [press] + [release])
    ensures Keys(draft + [press] + [release]) == Keys(draft)
  {
    var whole := draft + [press] + [release];
    assert whole[..|whole| - 1] == draft + [press];
    assert (draft + [press])[..|draft|] == draft;
    assert whole[..|whole| - 2] == draft;
  }

  lemma RecordKeyKeeps(t: Take, e: Event, gate: Gate)
    requires Orderly(t) && t.core.m.state == Recording && !IsModifierKey(e)
    ensures Kept(t, Record(t, e, gate), [e])
  {
    hide RecordEvent, Paired, Keys;
    RecordAppends(t, e, gate);
    AppendKey(t.core.store.draft, e);
  }

  lemma RecordTapKeeps(t: Take, press: Event, release: Event, gate: Gate)
    requires Orderly(t) && t.core.m.state == Recording && Tap(press, release) && !DraftFull(t)
    ensures |Record(t, press, gate).core.store.slots| == MAX_SLOTS
    ensures Kept(t, Record(Record(t, press, gate), release, gate), [])
  {
    hide RecordEvent, Paired, Keys;
    var t1 := Record(t, press, gate);
    RecordAppends(t, press, gate);
    RecordAppends(t1, release, gate);
    AppendTap(t.core.store.draft, press, release);
  }

  lemma ReleaseKeeps(t: Take, release: Event, gate: Gate)
    requires Orderly(t) && t.core.m.state == Recording && IsModifierKey(release) && release.pressed == 0
    ensures Kept(t, Release(t, release, gate), [])
  {
    hide RecordEvent, Paired, Keys, EntryOf;
    var i := EntryOf(t.pending, release.keycode);
    if i < |t.pending| {
      var p := t.pending[i];
      var freed := t.(pending := t.pending[i := p.(keycode := 0)]);
      RecordAppends(freed, p.press, gate);
      if !p.bracketed && !DraftFull(freed) {
        RecordTapKeeps(freed, p.press, release, gate);
      }
    }
  }

  lemma HearKeeps(t: Take, e: Event, report: bv8, gate: Gate)
    requires Orderly(t) && t.core.m.state == Recording
    ensures Kept(t, Hear(t, e, report, gate), if IsModifierKey(e) then [] else [Effective(e, report)])
  {
    hide Record, Release, Paired, Keys, EntryOf;
    var rec := Effective(e, report);
    if !IsModifierKey(e) {
      RecordKeyKeeps(t.(pending := MarkBracketed(t.pending)), rec, gate);
    } else if e.pressed == 0 {
      ReleaseKeeps(t, rec, gate);
    }
  }

  lemma ChainKeeps(t: Take, i: int, gate: Gate)
    requires Orderly(t) && t.core.m.state == Recording && ChainIsPaired(t, ChainKey(i, gate))
    ensures Kept(t, Continue(t, ChainKey(i, gate)), Added(t, ChainKey(i, gate)))
  {
    hide Paired, Keys;
    var c := t.core;
    if Paired(c.store.View(i)) {
      PairedJoin(c.store.draft, c.store.View(i));
    }
    KeysJoin(c.store.draft, c.store.View(i));
    ChainStore(c, i, gate);
  }

  /** A chain leaves the take orderly exactly when the chained macro holds no modifier down. */
  lemma ChainKeepsOrderIff(t: Take, i: int, gate: Gate)
    requires Orderly(t) && t.core.m.state == Recording && DraftChain(t.core.store, i).1 == Ok
    ensures Orderly(Continue(t, ChainKey(i, gate))) <==> Paired(t.core.store.View(i))
  {
    hide Paired, Dispatch;
    var draft, macro := t.core.store.draft, t.core.store.View(i);
    ChainStore(t.core, i, gate);
    if Paired(macro) {
      PairedJoin(draft, macro);
    } else if Paired(draft + macro) {
      PairedRest(draft, macro);
    }
  }

  lemma ChainStore(c: Core, i: int, gate: Gate)
    requires |c.store.slots| == MAX_SLOTS && c.m.state == Recording
    ensures Dispatch(c, SlotKey, i, gate, []).store == DraftChain(c.store, i).0
  {
  }

  lemma ContinueKeeps(t: Take, input: Input)
    requires Orderly(t) && OnTake(t) && ChainIsPaired(t, input)
    ensures Kept(t, Continue(t, input), Added(t, input))
  {
    hide Record, Release, Defer, MarkBracketed, DoSlot, Paired, Keys;
    assert Keys(t.core.store.draft) + [] == Keys(t.core.store.draft);
    if t.core.m.state == Recording {
      match input {
        case Heard(e, report, gate) => HearKeeps(t, e, report, gate);
        case DelayKey(ms, gate) => RecordKeyKeeps(t, MakeDelay(ms), gate);
        case ChainKey(i, gate) => ChainKeeps(t, i, gate);
        case CueDone(_) =>
      }
    }
  }

  function RunTake(t: Take, inputs: seq<Input>): Take
    requires |t.core.store.slots| == MAX_SLOTS
    decreases |inputs|
  {
    if inputs == [] then t
    else
      var t' := Continue(t, inputs[0]);
      if |t'.core.store.slots| == MAX_SLOTS then RunTake(t', inputs[1..]) else t'
  }

  /** The keys a run of inputs adds, in arrival order. */
  function AllAdded(t: Take, inputs: seq<Input>): seq<Event>
    requires |t.core.store.slots| == MAX_SLOTS
    decreases |inputs|
  {
    if inputs == [] then []
    else
      var t' := Continue(t, inputs[0]);
      Added(t, inputs[0]) + if |t'.core.store.slots| == MAX_SLOTS then AllAdded(t', inputs[1..]) else []
  }

  /** Every macro chained along the way holds no modifier down when it is chained. */
  predicate ChainsPaired(t: Take, inputs: seq<Input>)
    requires |t.core.store.slots| == MAX_SLOTS
    decreases |inputs|
  {
    inputs == [] ||
    var t' := Continue(t, inputs[0]);
    ChainIsPaired(t, inputs[0]) && (|t'.core.store.slots| == MAX_SLOTS ==> ChainsPaired(t', inputs[1..]))
  }

  lemma {:induction false} EndedStays(t: Take, inputs: seq<Input>)
    requires |t.core.store.slots| == MAX_SLOTS && !OnTake(t)
    ensures RunTake(t, inputs) == t
    decreases |inputs|
  {
    if inputs != [] {
      EndedStays(t, inputs[1..]);
    }
  }

  /**
   * For any key stream, delay inserts and chaining of macros that hold no modifier down, in a take
   * that has not been ended by overflow: every bare modifier in the draft is half of an adjacent press
   * and release of one key, so none is left held; and the other events are exactly those heard,
   * inserted and chained, in order.
   */
  lemma {:induction false} TakesStayOrderly(t: Take, inputs: seq<Input>)
    requires Orderly(t) && OnTake(t) && OnTake(RunTake(t, inputs)) && ChainsPaired(t, inputs)
    ensures
      var r := RunTake(t, inputs);
      Orderly(r) && Keys(r.core.store.draft) == Keys(t.core.store.draft) + AllAdded(t, inputs)
    decreases |inputs|
  {
    hide Continue, Added, Paired, Keys, OnTake, ChainIsPaired;
    if inputs != [] {
      ContinueKeeps(t, inputs[0]);
      var t' := Continue(t, inputs[0]);
      if OnTake(t') {
        TakesStayOrderly(t', inputs[1..]);
      } else {
        EndedStays(t', inputs[1..]);
      }
    }
  }

  /** REC, wherever it is accepted, begins an orderly take with an empty draft. */
  lemma RecBeginsTake(c: Core, gate: Gate)
    requires |c.store.slots| == MAX_SLOTS && Allowed(c.m.state, Rec) && MachineShape(c.m)
    ensures
      var t := Take(Dispatch(c, Rec, 0, gate, []), NoPending());
      OnTake(t) && Orderly(t) && t.core.store.draft == []
  {
    hide Paired;
    var t := Take(Dispatch(c, Rec, 0, gate, []), NoPending());
    NothingIsPaired();
  }

  lemma NothingIsPaired()
    ensures Paired([])
  {
  }

  /**
   * Overflow is what leaves a modifier held: a lone tap released when the draft has exactly one event
   * of room records the press, ends the take, and loses the release.
   */
  lemma OverflowLeavesModifierHeld(t: Take, release: Event, gate: Gate)
    requires Orderly(t) && t.core.m.state == Recording && IsModifierKey(release) && release.pressed == 0
    ensures
      var t' := Release(t, release, gate);
      && |t'.core.store.slots| == MAX_SLOTS
      && (!Paired(t'.core.store.draft) <==>
           var i := EntryOf(t.pending, release.keycode);
           i < |t.pending| && !t.pending[i].bracketed && |t.core.store.draft| == MAX_EVENTS - 1)
  {
    hide RecordEvent, Keys, EntryOf;
    var i := EntryOf(t.pending, release.keycode);
    if i < |t.pending| && !t.pending[i].bracketed {
      var p := t.pending[i];
      var freed := t.(pending := t.pending[i := p.(keycode := 0)]);
      RecordAppends(freed, p.press, gate);
      if !DraftFull(freed) {
        RecordAppends(Record(freed, p.press, gate), release, gate);
        AppendTap(t.core.store.draft, p.press, release);
        LonePress(t.core.store.draft, p.press);
      }
    }
  }

  lemma LonePress(draft: seq<Event>, press: Event)
    requires IsModifierKey(press) && press.pressed != 0
    ensures !Paired(draft + [press])
  {
  }

  /** A tap with nothing in between is kept; a key in between turns it into that key's modifier. */
  lemma LoneTapIsKept(t: Take, press: Event, key: Event, release: Event, report: bv8, gate: Gate)
    requires Orderly(t) && t.core.m.state == Recording && Tap(press, release) && !IsModifierKey(key)
    requires EntryOf(t.pending, release.keycode) == |t.pending| > EntryOf(t.pending, 0)
    requires |t.core.store.draft| + 2 <= MAX_EVENTS
    ensures
      var held := Hear(t, press, report, gate);
      && held.core == t.core
      && Hear(held, release, report, gate).core.store.draft
         == t.core.store.draft + [Effective(press, report), Effective(release, report)]
      && var chord := Hear(held, key, report, gate);
         && |chord.core.store.slots| == MAX_SLOTS
         && Hear(chord, release, report, gate).core.store.draft == t.core.store.draft + [Effective(key, report)]
  {
    hide RecordEvent, Paired, Keys;
    var held := Hear(t, press, report, gate);
    DeferredIsFound(t.pending, Effective(press, report));
    var i := EntryOf(held.pending, release.keycode);
    var freed := held.(pending := held.pending[i := held.pending[i].(keycode := 0)]);
    RecordAppends(freed, Effective(press, report), gate);
    RecordAppends(Record(freed, Effective(press, report), gate), Effective(release, report), gate);
    var marked := held.(pending := MarkBracketed(held.pending));
    RecordAppends(marked, Effective(key, report), gate);
    MarkedIsFound(held.pending, release.keycode);
  }

  /** With every entry taken a modifier is neither deferred nor recorded: the press is forgotten. */
  lemma FullBufferForgets(t: Take, press: Event, report: bv8, gate: Gate)
    requires |t.core.store.slots| == MAX_SLOTS && IsModifierKey(press) && press.pressed != 0
    requires forall k :: 0 <= k < |t.pending| ==> t.pending[k].keycode != 0
    ensures Hear(t, press, report, gate) == t
  {
  }

  /** A released modifier gives its entry back, kept or dropped: the oldest one of its key. */
  lemma ReleaseFreesEntry(t: Take, release: Event, report: bv8, gate: Gate)
    requires |t.core.store.slots| == MAX_SLOTS && t.core.m.state == Recording
    requires IsModifierKey(release) && release.pressed == 0
    ensures
      var i := EntryOf(t.pending, release.keycode);
      var after := Hear(t, release, report, gate).pending;
      && |after| == |t.pending|
      && (forall k :: 0 <= k < |after| && k != i ==> after[k] == t.pending[k])
      && (i < |after| ==> after[i].keycode == 0)
  {
    hide RecordEvent, EntryOf;
  }

  lemma DeferredIsFound(pending: seq<Pending>, press: Event)
    requires IsModifierKey(press) && EntryOf(pending, press.keycode) == |pending| > EntryOf(pending, 0)
    ensures
      var deferred := Defer(pending, press);
      var i := EntryOf(deferred, press.keycode);
      i < |deferred| && deferred[i] == Pending(press.keycode, false, press)
  {
    var i := EntryOf(pending, 0);
    assert Defer(pending, press)[i].keycode == press.keycode;
  }

  lemma MarkedIsFound(pending: seq<Pending>, keycode: int)
    requires keycode != 0 && EntryOf(pending, keycode) < |pending|
    ensures
      var i := EntryOf(MarkBracketed(pending), keycode);
      i < |pending| && MarkBracketed(pending)[i].bracketed
  {
    var i := EntryOf(pending, keycode);
    assert MarkBracketed(pending)[i].keycode == keycode;
  }

  // ---- the listener as it runs -----------------------------------------------------------------

  class Listener {
    const machine: MacroMachine.Machine
    const pending: array<Pending>

    ghost predicate Valid()
      reads machine, machine.Repr(), pending
    {
      machine.Valid() && pending !in machine.Repr()
    }

    ghost function Value(): Take
      reads machine, machine.store, machine.store.sink, pending
    {
      Take(machine.Value(), pending[..])
    }

    constructor (machine: MacroMachine.Machine)
      requires machine.Valid()
      ensures Valid() && this.machine == machine && fresh(pending) && Value() == Take(machine.Value(), NoPending())
    {
      this.machine := machine;
      pending := new Pending[PENDING_ENTRIES](_ => FREE_ENTRY);
      new;
      assert pending[..] == NoPending();
    }

    /** Drop any buffered modifier; every DM_REC press starts with this. */
    method ResetPending()
      modifies pending
      ensures pending[..] == seq(pending.Length, _ => FREE_ENTRY)
    {
      for i := 0 to pending.Length
        invariant forall k :: 0 <= k < i ==> pending[k] == FREE_ENTRY
      {
        pending[i] := FREE_ENTRY;
      }
    }

    method Find(keycode: int) returns (i: nat)
      ensures i == EntryOf(pending[..], keycode)
    {
      i := 0;
      while i < pending.Length && pending[i].keycode != keycode
        invariant i <= pending.Length && EntryOf(pending[..], keycode) == i + EntryOf(pending[i..], keycode)
      {
        assert pending[i..][1..] == pending[i + 1..];
        i := i + 1;
      }
    }

    method MarkAllBracketed()
      requires Valid()
      modifies pending
      ensures Valid() && Value() == old(Value()).(pending := MarkBracketed(old(pending[..])))
    {
      hide MacroMachine.Machine.Valid;
      for i := 0 to pending.Length
        invariant Valid() && machine.Value() == old(machine.Value())
        invariant forall k :: 0 <= k < i ==> pending[k] == Bracket(old(pending[k]))
        invariant forall k :: i <= k < pending.Length ==> pending[k] == old(pending[k])
      {
        if pending[i].keycode != 0 {
          pending[i] := pending[i].(bracketed := true);
        }
      }
    }

    method DeferPress(press: Event)
      requires Valid()
      modifies pending
      ensures Valid() && Value() == old(Value()).(pending := Defer(old(pending[..]), press))
    {
      hide MacroMachine.Machine.Valid;
      var i := Find(0);
      if i < pending.Length {
        pending[i] := Pending(press.keycode, false, press);
      }
    }

    /** record_event: false when the draft was full and the take ended. */
    method RecordOne(e: Event, gate: Gate) returns (ok: bool)
      requires Valid()
      modifies machine.Repr(), machine.store.sink`queue
      ensures Valid() && Value() == Record(old(Value()), e, gate) && ok == !DraftFull(old(Value()))
      ensures pending[..] == old(pending[..])
    {
      hide MacroMachine.Machine.Valid, RecordEvent;
      ok := HasRoom();
      machine.RecordEvent(e, gate);
    }

    method HasRoom() returns (ok: bool)
      requires Valid()
      ensures ok == !DraftFull(Value())
    {
      var n := machine.DraftCount();
      ok := n < MAX_EVENTS;
    }

    method ReleaseModifier(release: Event, gate: Gate)
      requires Valid()
      modifies machine.Repr(), machine.store.sink`queue, pending
      ensures Valid() && Value() == Release(old(Value()), release, gate)
    {
      hide MacroMachine.Machine.Valid, Record, EntryOf, DraftFull;
      var i := Find(release.keycode);
      if i == pending.Length {
        return;
      }
      var p := pending[i];
      FreeEntry(i);
      if !p.bracketed {
        var ok := RecordOne(p.press, gate);
        if ok {
          var _ := RecordOne(release, gate);
        }
      }
    }

    method FreeEntry(i: nat)
      requires Valid() && i < pending.Length
      modifies pending
      ensures Valid() && Value() == old(Value()).(pending := old(pending[..])[i := old(pending[i]).(keycode := 0)])
    {
      hide MacroMachine.Machine.Valid;
      pending[i] := pending[i].(keycode := 0);
    }

    /** The recording part of the listener. */
    method OnKey(e: Event, report: bv8, gate: Gate)
      requires Valid()
      modifies machine.Repr(), machine.store.sink`queue, pending
      ensures Valid() && Value() == Hear(old(Value()), e, report, gate)
    {
      hide MacroMachine.Machine.Valid, Record, Release, Defer, MarkBracketed;
      if machine.state != Recording {
        return;
      }
      var rec := Effective(e, report);
      if !IsModifierKey(e) {
        MarkAllBracketed();
        var _ := RecordOne(rec, gate);
      } else if e.pressed != 0 {
        DeferPress(rec);
      } else {
        ReleaseModifier(rec, gate);
      }
    }
  }
}
