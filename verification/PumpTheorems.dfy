/** The ring-fed pump types exactly what the message says, and the erase takes exactly it back. */
module PumpTheorems {
  import opened Config
  import opened StoreSpec
  import opened Keymaps
  import opened Render
  import opened Messages
  import opened MachineSpec
  import opened PumpSpec

  // ---- sequences of halves ------------------------------------------------------------------

  lemma HalvesAppend(a: seq<Keystroke>, b: seq<Keystroke>)
    ensures Halves(a + b) == Halves(a) + Halves(b)
  {
  }

  lemma HalvesFirst(keys: seq<Keystroke>)
    requires keys != []
    ensures Halves(keys) == [Out(keys[0], true)] + [Out(keys[0], false)] + Halves(keys[1..])
  {
    assert keys == [keys[0]] + keys[1..];
    HalvesAppend([keys[0]], keys[1..]);
  }

  /** Keystrokes that leave a visible character. */
  function Visible(keys: seq<Keystroke>): nat {
    if keys == [] then 0 else (if keys[0].keycode == HID_RETURN then 0 else 1) + Visible(keys[1..])
  }

  // ---- what is still to be typed ------------------------------------------------------------

  ghost function RestText(u: Setup, s: Store, m: Message): string
    requires |s.slots| == MAX_SLOTS
  {
    (if m.previewPending then Rest(u.locale, SlotEvents(s, m.spec.slot), m.cursor) else "") + AfterPreview(u, s, m)
  }

  ghost function AfterPreview(u: Setup, s: Store, m: Message): string
    requires |s.slots| == MAX_SLOTS
  {
    (if m.suffixPending then SuffixFor(u, s, m.spec, m.firstSlot) else "")
    + (if m.statusMode then StatusLines(u, s, m.nextSlot, m.firstSlot) else "")
  }

  /** A pump between two fires: its numbers are in range, and a release follows its press. */
  ghost predicate Sound(s: Store, p: Pump) {
    |s.slots| == MAX_SLOTS && p.msg.nextSlot <= MAX_SLOTS && (!p.pressPhase ==> p.ring != [])
  }

  /** Keystrokes not yet pressed. */
  ghost function Unpressed(u: Setup, s: Store, p: Pump): seq<Keystroke>
    requires Sound(s, p)
  {
    (if p.pressPhase then p.ring else p.ring[1..]) + Typed(u.locale, RestText(u, s, p.msg))
  }

  /** Characters counted for erasure so far, and those still to be counted. */
  ghost function Tally(u: Setup, s: Store, p: Pump): nat
    requires Sound(s, p)
  {
    p.eraseCount + Visible(Unpressed(u, s, p))
  }

  ghost function Owed(u: Setup, s: Store, p: Pump): seq<Out>
    requires Sound(s, p)
  {
    (if p.pressPhase then [] else [Out(p.ring[0], false)]) + Halves(Unpressed(u, s, p))
  }

  /** Separators that leave room for a status label, and slots a build can have. */
  ghost predicate Fits(u: Setup, s: Store, spec: Spec) {
    && s.Valid() && spec.slot < MAX_SLOTS && spec.slot2 < MAX_SLOTS && |spec.knobText| <= 9
    && |u.headerSep| <= 53 && |u.slotSep| <= 53
  }

  /** A message in the middle of being typed. */
  ghost predicate Typing(u: Setup, s: Store, p: Pump) {
    && Fits(u, s, p.msg.spec) && Sound(s, p)
    && p.active && !p.erasing && p.timer
    && (p.msg.previewPending ==> p.msg.suffixPending)
  }

  // ---- everything but previews goes into the ring whole --------------------------------------

  lemma {:induction false} FilledAtMost(s: Store, i: nat)
    requires |s.slots| == MAX_SLOTS
    ensures |FilledSlots(s, 0, i)| <= i
  {
    if i == 0 {
      assert FilledSlots(s, 0, 0) == {};
    } else {
      FilledAtMost(s, i - 1);
      FilledStep(s, 0, i - 1);
    }
  }

  lemma FactsArePlausible(u: Setup, s: Store, spec: Spec, firstSlot: bool)
    requires Fits(u, s, spec)
    ensures Plausible(spec, GatherFacts(u, s, spec.slot, firstSlot))
  {
    SizesFit();
    FilledAtMost(s, MAX_SLOTS);
    if IsSlot(spec.slot) {
      TotalUpdate(s.slots, spec.slot, FREE_SLOT);
    }
  }

  lemma FillsWhole(u: Setup, s: Store, spec: Spec, firstSlot: bool)
    requires Fits(u, s, spec)
    ensures Fill(u, BuildFor(u, s, spec, firstSlot).text) == Typed(u.locale, BuildFor(u, s, spec, firstSlot).text)
    ensures Fill(u, SuffixFor(u, s, spec, firstSlot)) == Typed(u.locale, SuffixFor(u, s, spec, firstSlot))
  {
    hide Build, Suffix, Plausible, GatherFacts;
    FactsArePlausible(u, s, spec, firstSlot);
    ScaffoldingFits(spec, u.style, u.locale, GatherFacts(u, s, spec.slot, firstSlot));
  }

  // ---- one timer fire -------------------------------------------------------------------------

  lemma RestAtEnd(l: Locale, events: seq<Event>, cur: Cursor)
    ensures cur.idx >= |events| ==> Rest(l, events, cur) == ""
  {
  }

  /** Refilling changes nothing about what is to be typed, and never comes up empty-handed. */
  lemma RefillKeeps(u: Setup, s: Store, p: Pump)
    requires Sound(s, p)
    ensures
      var r := Refill(u, s, p);
      Sound(s, r) && Unpressed(u, s, r) == Unpressed(u, s, p) && (r.ring == [] ==> !r.msg.previewPending)
  {
    hide Rest, Walk, AfterPreview, SlotEvents;
    if p.ring == [] && p.msg.previewPending {
      var events, l := SlotEvents(s, p.msg.spec.slot), u.locale;
      var w := Walk(l, events, p.msg.cursor, RING_KEYS);
      WalkConserves(l, events, p.msg.cursor, RING_KEYS);
      RestAtEnd(l, events, w.cur);
      var r := Refill(u, s, p);
      SameAfterPreview(u, s, p.msg, r.msg);
      assert RestText(u, s, p.msg) == w.text + RestText(u, s, r.msg);
      TypedAppend(l, w.text, RestText(u, s, r.msg));
    }
  }

  lemma SameAfterPreview(u: Setup, s: Store, m: Message, m': Message)
    requires |s.slots| == MAX_SLOTS
    requires m' == m.(cursor := m'.cursor, previewPending := m'.previewPending)
    ensures AfterPreview(u, s, m') == AfterPreview(u, s, m)
  {
  }

  lemma CloseKeeps(u: Setup, s: Store, p: Pump)
    requires Fits(u, s, p.msg.spec) && Sound(s, p)
    ensures
      var r := CloseUp(u, s, p);
      && Sound(s, r) && Unpressed(u, s, r) == Unpressed(u, s, p)
      && (r.ring == [] && !p.msg.previewPending ==> !r.msg.suffixPending)
  {
    hide SuffixFor, StatusLines, Rest, Fill, Total;
    if p.ring == [] && p.msg.suffixPending && !p.msg.previewPending {
      var r := CloseUp(u, s, p);
      var suffix := SuffixFor(u, s, p.msg.spec, p.msg.firstSlot);
      FillsWhole(u, s, p.msg.spec, p.msg.firstSlot);
      assert RestText(u, s, p.msg) == suffix + RestText(u, s, r.msg);
      TypedAppend(u.locale, suffix, RestText(u, s, r.msg));
    }
  }

  /** Each fire that finds a keystroke raises exactly the next half. */
  lemma EmitAdvances(u: Setup, s: Store, p: Pump)
    requires Sound(s, p) && p.ring != []
    ensures
      var r := Emit(p);
      && Sound(s, r)
      && r.out + Owed(u, s, r) == p.out + Owed(u, s, p)
      && |Owed(u, s, r)| == |Owed(u, s, p)| - 1
  {
    hide RestText, Halves;
    var rest := Typed(u.locale, RestText(u, s, p.msg));
    if p.pressPhase {
      HalvesFirst(p.ring + rest);
      assert (p.ring + rest)[1..] == p.ring[1..] + rest;
    }
  }

  lemma EmitCounts(u: Setup, s: Store, p: Pump)
    requires Sound(s, p) && p.ring != [] && !p.erasing && Tally(u, s, p) < 0x1_0000
    ensures Sound(s, Emit(p)) && Tally(u, s, Emit(p)) == Tally(u, s, p)
  {
    hide RestText, Visible, Typed;
    var rest := Typed(u.locale, RestText(u, s, p.msg));
    if p.pressPhase {
      assert (p.ring + rest)[1..] == p.ring[1..] + rest;
      VisibleFirst(p.ring + rest);
    }
  }

  lemma VisibleFirst(keys: seq<Keystroke>)
    requires keys != []
    ensures Visible(keys) == (if keys[0].keycode == HID_RETURN then 0 else 1) + Visible(keys[1..])
  {
  }

  /** A drained line that owes nothing more. */
  ghost predicate Exhausted(u: Setup, s: Store, p: Pump) {
    && Fits(u, s, p.msg.spec) && Sound(s, p) && p.active && !p.erasing
    && p.ring == [] && !p.msg.previewPending && !p.msg.suffixPending
  }

  lemma {:induction false} SkippedLines(u: Setup, s: Store, i: nat, firstSlot: bool)
    requires |s.slots| == MAX_SLOTS && i <= MAX_SLOTS
    ensures StatusLines(u, s, i, firstSlot) == StatusLines(u, s, NextListed(u, s, i), firstSlot)
    decreases MAX_SLOTS - i
  {
    hide MessageText;
    if i < MAX_SLOTS && !Listed(u, s, i) {
      SkippedLines(u, s, i + 1, firstSlot);
    }
  }

  /** Which separator a line led with does not matter to what closes it. */
  lemma SuffixIgnoresPosition(u: Setup, s: Store, spec: Spec)
    requires |s.slots| == MAX_SLOTS
    ensures SuffixFor(u, s, spec, true) == SuffixFor(u, s, spec, false)
  {
  }

  lemma LinesFrom(u: Setup, s: Store, i: nat, firstSlot: bool)
    requires |s.slots| == MAX_SLOTS && i < MAX_SLOTS && Listed(u, s, i)
    ensures
      StatusLines(u, s, i, firstSlot)
      == MessageText(u, s, LineSpec(u, i), firstSlot) + StatusLines(u, s, i + 1, false)
  {
  }

  /** What follows a line's fixed text, once the line has started. */
  lemma LineRest(u: Setup, s: Store, m: Message, slot: nat)
    requires |s.slots| == MAX_SLOTS && slot < MAX_SLOTS && m.statusMode && Listed(u, s, slot)
    ensures
      var built := BuildFor(u, s, LineSpec(u, slot), m.firstSlot);
      StatusLines(u, s, slot, m.firstSlot) == built.text + RestText(u, s, LineMessage(u, m, slot, built.previewFollows))
  {
    hide StatusLines, SuffixFor, BuildFor, Rest;
    LinesFrom(u, s, slot, m.firstSlot);
    SuffixIgnoresPosition(u, s, LineSpec(u, slot));
  }

  lemma AdvanceKeeps(u: Setup, s: Store, p: Pump)
    requires Exhausted(u, s, p) && p.msg.statusMode && NextListed(u, s, p.msg.nextSlot) < MAX_SLOTS
    ensures
      var r := StatusAdvance(u, s, p);
      Typing(u, s, r) && r.msg.nextSlot > p.msg.nextSlot && Unpressed(u, s, r) == Unpressed(u, s, p)
  {
    hide StatusLines, SuffixFor, BuildFor, Fill, Rest, Total, SlotEvents;
    var slot := NextListed(u, s, p.msg.nextSlot);
    var built := BuildFor(u, s, LineSpec(u, slot), p.msg.firstSlot);
    SkippedLines(u, s, p.msg.nextSlot, p.msg.firstSlot);
    FillsWhole(u, s, LineSpec(u, slot), p.msg.firstSlot);
    LineRest(u, s, p.msg, slot);
    TypedAppend(u.locale, built.text, RestText(u, s, LineMessage(u, p.msg, slot, built.previewFollows)));
  }

  /** How many more fires can matter. */
  ghost function Fuel(u: Setup, s: Store, p: Pump): nat
    requires Sound(s, p)
  {
    |Owed(u, s, p)| + (MAX_SLOTS - p.msg.nextSlot)
  }

  /** A step of a message in progress: more of it typed and more to come, or the report that it is done. */
  ghost predicate Advanced(u: Setup, s: Store, p: Pump, r: Pump)
    requires Sound(s, p)
  {
    if r.active then
      && Typing(u, s, r) && r.calls == p.calls && r.eraseScheduled == p.eraseScheduled
      && r.out + Owed(u, s, r) == p.out + Owed(u, s, p) && Fuel(u, s, r) < Fuel(u, s, p)
      && (Tally(u, s, p) < 0x1_0000 ==> Tally(u, s, r) == Tally(u, s, p)) && r.msg.statusMode == p.msg.statusMode
    else
      && r.out == p.out + Owed(u, s, p) && r.calls == p.calls + [TypingFinishedCall]
      && (Tally(u, s, p) < 0x1_0000 ==> r.eraseCount == Tally(u, s, p))
      && (u.eraseEnabled && !p.msg.statusMode && r.eraseCount > 0 ==> EraseDueLater(r))
      && (r.eraseScheduled <==> p.eraseScheduled || (u.eraseEnabled && !p.msg.statusMode && r.eraseCount > 0))
  }

  /** Nothing is being typed, and an erase of everything counted is due. */
  ghost predicate EraseDueLater(p: Pump) {
    && !p.active && p.erasePending && p.eraseScheduled && p.eraseCount > 0
    && p.ring == [] && p.pressPhase && !p.msg.previewPending && !p.msg.suffixPending
  }

  lemma NoLines(u: Setup, s: Store, firstSlot: bool)
    requires |s.slots| == MAX_SLOTS
    ensures StatusLines(u, s, MAX_SLOTS, firstSlot) == ""
  {
  }

  lemma DrainedAdvances(u: Setup, s: Store, p: Pump)
    requires Exhausted(u, s, p)
    ensures Advanced(u, s, p, Drained(u, s, p))
  {
    hide StatusLines, SuffixFor, BuildFor, Fill, Total, Fits;
    if p.msg.statusMode && NextListed(u, s, p.msg.nextSlot) < MAX_SLOTS {
      AdvanceKeeps(u, s, p);
    } else {
      SkippedLines(u, s, p.msg.nextSlot, p.msg.firstSlot);
      NoLines(u, s, p.msg.firstSlot);
    }
  }

  lemma EmitStays(u: Setup, s: Store, p: Pump)
    requires Fits(u, s, p.msg.spec) && Sound(s, p) && p.active && !p.erasing && p.ring != []
    requires p.msg.previewPending ==> p.msg.suffixPending
    ensures Advanced(u, s, p, Emit(p))
  {
    hide RestText, Fits, Halves, Owed, Tally;
    EmitAdvances(u, s, p);
    if Tally(u, s, p) < 0x1_0000 {
      EmitCounts(u, s, p);
    }
  }

  /** The ring as one fire finds it, refilled where it was empty. */
  ghost function Readied(u: Setup, s: Store, p: Pump): Pump
    requires |s.slots| == MAX_SLOTS
  {
    CloseUp(u, s, Refill(u, s, p.(timer := false)))
  }

  lemma ReadiedKeeps(u: Setup, s: Store, p: Pump)
    requires Typing(u, s, p)
    ensures
      var r := Readied(u, s, p);
      && Sound(s, r) && Unpressed(u, s, r) == Unpressed(u, s, p) && Owed(u, s, r) == Owed(u, s, p)
      && (r.ring == [] ==> !r.msg.previewPending && !r.msg.suffixPending)
      && r.msg.statusMode == p.msg.statusMode && r.eraseCount == p.eraseCount
      && (r.msg.previewPending ==> r.msg.suffixPending)
      && r.msg.spec == p.msg.spec && r.msg.nextSlot == p.msg.nextSlot
      && r.active && !r.erasing && r.out == p.out && r.calls == p.calls && r.eraseScheduled == p.eraseScheduled
  {
    hide RestText, Fits, Halves, Walk, SuffixFor, Fill, Typed, SlotEvents;
    var p1 := p.(timer := false);
    RefillKeeps(u, s, p1);
    CloseKeeps(u, s, Refill(u, s, p1));
  }

  lemma FireAdvances(u: Setup, s: Store, p: Pump)
    requires Typing(u, s, p)
    ensures Advanced(u, s, p, Fire(u, s, p))
  {
    hide Fits, Drained, Refill, CloseUp, Emit, Owed;
    ReadiedKeeps(u, s, p);
    var r := Readied(u, s, p);
    if r.ring == [] {
      DrainedAdvances(u, s, r);
    } else {
      EmitStays(u, s, r);
    }
  }

  // ---- whole messages -------------------------------------------------------------------------

  /** Any number of timer fires, stale ones included. */
  ghost function Fires(u: Setup, s: Store, p: Pump, n: nat): Pump
    requires |s.slots| == MAX_SLOTS
  {
    if n == 0 then p else Fire(u, s, Fires(u, s, p, n - 1))
  }

  /** `r` is `p` after `n` fires: on the way, or done. */
  ghost predicate Underway(u: Setup, s: Store, p: Pump, r: Pump, n: nat)
    requires Sound(s, p)
  {
    if r.active then
      && Typing(u, s, r) && r.calls == p.calls && r.eraseScheduled == p.eraseScheduled
      && r.out + Owed(u, s, r) == p.out + Owed(u, s, p) && Fuel(u, s, r) + n <= Fuel(u, s, p)
      && (Tally(u, s, p) < 0x1_0000 ==> Tally(u, s, r) == Tally(u, s, p)) && r.msg.statusMode == p.msg.statusMode
    else
      && r.out == p.out + Owed(u, s, p) && r.calls == p.calls + [TypingFinishedCall]
      && (Tally(u, s, p) < 0x1_0000 ==> r.eraseCount == Tally(u, s, p))
      && (u.eraseEnabled && !p.msg.statusMode && r.eraseCount > 0 ==> EraseDueLater(r))
      && (r.eraseScheduled <==> p.eraseScheduled || (u.eraseEnabled && !p.msg.statusMode && r.eraseCount > 0))
  }

  lemma StaleFire(u: Setup, s: Store, p: Pump)
    requires |s.slots| == MAX_SLOTS && !p.active
    ensures Fire(u, s, p) == p.(timer := false)
  {
  }

  lemma {:induction false} FiresAdvance(u: Setup, s: Store, p: Pump, n: nat)
    requires Typing(u, s, p)
    ensures Underway(u, s, p, Fires(u, s, p, n), n)
  {
    hide Fits, Owed, Tally, Fire;
    if n > 0 {
      FiresAdvance(u, s, p, n - 1);
      var q := Fires(u, s, p, n - 1);
      if q.active {
        FireAdvances(u, s, q);
      } else {
        StaleFire(u, s, q);
      }
    }
  }

  lemma SpeakStarts(u: Setup, s: Store, p0: Pump, spec: Spec)
    requires Types(u, spec.kind) && Fits(u, s, spec)
    ensures
      var p := BeginMessage(u, s, p0, spec);
      && Typing(u, s, p) && Unpressed(u, s, p) == Typed(u.locale, Direct(u, s, spec))
      && p.msg.nextSlot == 0 && p.pressPhase && p.eraseCount == 0
      && p.out == p0.out && p.calls == p0.calls && p.eraseScheduled == p0.eraseScheduled
  {
    hide BuildFor, SuffixFor, Fill, StatusLines, Rest, Total, Types;
    var spec' := Resolved(u, spec);
    var built := BuildFor(u, s, spec', true);
    FillsWhole(u, s, spec', true);
    NoSlotsNoLines(u, s);
    var rest := RestText(u, s, Opened(u, spec', built.previewFollows));
    assert Direct(u, s, spec) == built.text + rest;
    TypedAppend(u.locale, built.text, rest);
  }

  lemma NoSlotsNoLines(u: Setup, s: Store)
    requires |s.slots| == MAX_SLOTS
    ensures MAX_SLOTS == 0 ==> StatusLines(u, s, 0, true) == ""
  {
  }

  lemma BegunOwes(u: Setup, s: Store, p0: Pump, spec: Spec)
    requires Types(u, spec.kind) && Fits(u, s, spec)
    ensures
      var p := BeginMessage(u, s, p0, spec);
      && Typing(u, s, p) && Owed(u, s, p) == Halves(Typed(u.locale, Direct(u, s, spec)))
      && Fuel(u, s, p) == 2 * |Direct(u, s, spec)| + MAX_SLOTS
      && p.out == p0.out && p.calls == p0.calls && p.eraseScheduled == p0.eraseScheduled
  {
    hide BeginMessage, Direct, Types, Unpressed;
    SpeakStarts(u, s, p0, spec);
  }

  /** Streaming over a store that does not change while the message types. */
  lemma SteadyStreaming(u: Setup, s: Store, p0: Pump, spec: Spec, n: nat)
    requires Types(u, spec.kind) && Fits(u, s, spec)
    ensures
      var r := Fires(u, s, BeginMessage(u, s, p0, spec), n);
      var whole := p0.out + Halves(Typed(u.locale, Direct(u, s, spec)));
      && r.out <= whole
      && (r.active ==> r.timer && r.calls == p0.calls && r.eraseScheduled == p0.eraseScheduled)
      && (!r.active ==> r.out == whole && r.calls == p0.calls + [TypingFinishedCall])
      && (n > 2 * |Direct(u, s, spec)| + MAX_SLOTS ==> !r.active)
  {
    hide BeginMessage, Fires, Direct, Total, Types, Owed, Halves, Tally, Typed;
    BegunOwes(u, s, p0, spec);
    var p := BeginMessage(u, s, p0, spec);
    FiresAdvance(u, s, p, n);
    var r := Fires(u, s, p, n);
    if r.active {
      assert r.out <= r.out + Owed(u, s, r);
    }
  }

  // ---- which slots get a line ------------------------------------------------------------------------

  /** The slots from `i` on that a status dump lists: all at full detail, else those that show a macro. */
  ghost predicate IsListing(u: Setup, s: Store, i: nat, slots: seq<nat>)
    requires |s.slots| == MAX_SLOTS
  {
    && (forall k, l :: 0 <= k < l < |slots| ==> slots[k] < slots[l])
    && (forall k :: 0 <= k < |slots| ==> i <= slots[k] < MAX_SLOTS)
    && (forall j :: i <= j < MAX_SLOTS ==> (j in slots <==> u.statusDetail >= 4 || s.View(j) != []))
  }

  /** The lines of these slots, the first of them led by the header's separator when `firstSlot`. */
  ghost function Lines(u: Setup, s: Store, slots: seq<nat>, firstSlot: bool): string
    requires |s.slots| == MAX_SLOTS
  {
    if slots == [] then ""
    else MessageText(u, s, LineSpec(u, slots[0]), firstSlot) + Lines(u, s, slots[1..], false)
  }

  lemma HeadListed(u: Setup, s: Store, i: nat, slots: seq<nat>)
    requires |s.slots| == MAX_SLOTS && IsListing(u, s, i, slots) && slots != []
    ensures i <= slots[0] < MAX_SLOTS
  {
  }

  /** There is such a list. */
  lemma {:induction false} SlotsToList(u: Setup, s: Store, i: nat) returns (slots: seq<nat>)
    requires |s.slots| == MAX_SLOTS
    ensures IsListing(u, s, i, slots)
    decreases MAX_SLOTS - i
  {
    if i >= MAX_SLOTS {
      slots := [];
    } else {
      var rest := SlotsToList(u, s, i + 1);
      slots := if u.statusDetail >= 4 || s.View(i) != [] then [i] + rest else rest;
      assert forall j :: i + 1 <= j < MAX_SLOTS ==> (j in slots <==> j in rest);
    }
  }

  /** A status dump has one line for each such slot, in ascending order, and no other. */
  lemma {:induction false} DumpListsSlots(u: Setup, s: Store, i: nat, slots: seq<nat>, firstSlot: bool)
    requires |s.slots| == MAX_SLOTS && IsListing(u, s, i, slots)
    ensures StatusLines(u, s, i, firstSlot) == Lines(u, s, slots, firstSlot)
    decreases MAX_SLOTS - i
  {
    hide MessageText;
    if i < MAX_SLOTS {
      if Listed(u, s, i) {
        assert s.View(i) != [] || u.statusDetail >= 4;
        assert slots[0] == i;
        assert forall j :: i + 1 <= j < MAX_SLOTS ==> (j in slots[1..] <==> j in slots);
        DumpListsSlots(u, s, i + 1, slots[1..], false);
      } else {
        assert s.View(i) == [];
        DumpListsSlots(u, s, i + 1, slots, firstSlot);
      }
    } else if slots != [] {
      HeadListed(u, s, i, slots);
    }
  }

  // ---- a store that changes while a message types ------------------------------------------------

  lemma SameFacts(u: Setup, s: Store, s': Store, slot: int, firstSlot: bool)
    requires |s.slots| == |s'.slots| == MAX_SLOTS && SameViews(s, s')
    ensures SlotEvents(s, slot) == SlotEvents(s', slot) && s.IsEmpty(slot) == s'.IsEmpty(slot)
    ensures GatherFacts(u, s, slot, firstSlot) == GatherFacts(u, s', slot, firstSlot)
  {
    forall i
      ensures s.View(i) == s'.View(i) && s.IsEmpty(i) == s'.IsEmpty(i)
    {
      assert IsSlot(i) ==> s'.View(i) == s.View(i);
    }
    assert FilledSlots(s, 0, MAX_SLOTS) == FilledSlots(s', 0, MAX_SLOTS);
  }

  lemma {:induction false} SameListed(u: Setup, s: Store, s': Store, i: nat)
    requires |s.slots| == |s'.slots| == MAX_SLOTS && SameViews(s, s')
    ensures NextListed(u, s, i) == NextListed(u, s', i)
    decreases MAX_SLOTS - i
  {
    SameFacts(u, s, s', i, true);
    if i < MAX_SLOTS {
      SameListed(u, s, s', i + 1);
    }
  }

  lemma SameReadied(u: Setup, s: Store, s': Store, p: Pump)
    requires |s.slots| == |s'.slots| == MAX_SLOTS && SameViews(s, s')
    ensures CloseUp(u, s, Refill(u, s, p)) == CloseUp(u, s', Refill(u, s', p))
  {
    hide Suffix, GatherFacts, Walk, SameViews, SlotEvents, Fill;
    SameFacts(u, s, s', p.msg.spec.slot, p.msg.firstSlot);
    assert Refill(u, s, p) == Refill(u, s', p);
  }

  lemma SameDrained(u: Setup, s: Store, s': Store, p: Pump)
    requires |s.slots| == |s'.slots| == MAX_SLOTS && SameViews(s, s')
    ensures Drained(u, s, p) == Drained(u, s', p)
  {
    hide Build, GatherFacts, SameViews, NextListed, Fill;
    SameListed(u, s, s', p.msg.nextSlot);
    var slot := NextListed(u, s, p.msg.nextSlot);
    SameFacts(u, s, s', slot, p.msg.firstSlot);
    assert StatusAdvance(u, s, p) == StatusAdvance(u, s', p);
  }

  /** A fire sees of the store only what its slots show. */
  lemma SameFire(u: Setup, s: Store, s': Store, p: Pump)
    requires |s.slots| == |s'.slots| == MAX_SLOTS && SameViews(s, s')
    ensures Fire(u, s, p) == Fire(u, s', p)
  {
    hide CloseUp, Refill, Drained, SameViews;
    SameReadied(u, s, s', p.(timer := false));
    SameDrained(u, s, s', CloseUp(u, s, Refill(u, s, p.(timer := false))));
  }

  /** One timer fire over each of the stores in turn. */
  ghost function FiresOver(u: Setup, stores: seq<Store>, p: Pump): Pump
    requires forall k :: 0 <= k < |stores| ==> |stores[k].slots| == MAX_SLOTS
  {
    if stores == [] then p
    else Fire(u, stores[|stores| - 1], FiresOver(u, stores[..|stores| - 1], p))
  }

  /** Stores that show what `s` shows. */
  predicate Alike(s: Store, stores: seq<Store>)
    requires |s.slots| == MAX_SLOTS
  {
    forall k :: 0 <= k < |stores| ==> |stores[k].slots| == MAX_SLOTS && SameViews(s, stores[k])
  }

  lemma {:induction false} AlikeFires(u: Setup, s: Store, stores: seq<Store>, p: Pump)
    requires |s.slots| == MAX_SLOTS && Alike(s, stores)
    ensures FiresOver(u, stores, p) == Fires(u, s, p, |stores|)
  {
    hide Fire, SameViews;
    if stores != [] {
      var n := |stores| - 1;
      AlikeFires(u, s, stores[..n], p);
      SameFire(u, s, stores[n], FiresOver(u, stores[..n], p));
    }
  }

  /**
   * Ring streaming equals direct output. For every message, style, layout and macro, with separators
   * that leave room for a label, and over a store that may change as long as its slots show the same:
   * under any number of timer fires what has been raised is a prefix of the presses and releases of
   * the whole text; while it is incomplete a timer is armed and nothing is reported; it completes
   * within two fires a character and one a slot; and then exactly the whole text has been raised and
   * typing_finished reported once, however many more fires arrive.
   */
  lemma StreamingIsDirect(u: Setup, s: Store, p0: Pump, spec: Spec, stores: seq<Store>)
    requires Types(u, spec.kind) && Fits(u, s, spec) && |s.slots| == MAX_SLOTS && Alike(s, stores)
    ensures
      var r := FiresOver(u, stores, BeginMessage(u, s, p0, spec));
      var whole := p0.out + Halves(Typed(u.locale, Direct(u, s, spec)));
      && r.out <= whole
      && (r.active ==> r.timer && r.calls == p0.calls && r.eraseScheduled == p0.eraseScheduled)
      && (!r.active ==> r.out == whole && r.calls == p0.calls + [TypingFinishedCall])
      && (|stores| > 2 * |Direct(u, s, spec)| + MAX_SLOTS ==> !r.active)
  {
    hide BeginMessage, FiresOver, Fires, Direct, Total, Types, Alike, Halves, Typed;
    AlikeFires(u, s, stores, BeginMessage(u, s, p0, spec));
    SteadyStreaming(u, s, p0, spec, |stores|);
  }

  // ---- erasing what was typed -------------------------------------------------------------------

  /** Backspace halves still to come. */
  ghost function EraseOwed(p: Pump): seq<Out>
    requires !p.pressPhase ==> p.ring != []
  {
    (if p.pressPhase then [] else [Out(p.ring[0], false)])
    + Halves((if p.pressPhase then p.ring else p.ring[1..]) + Backspaces(if p.erasePending then p.eraseCount else 0))
  }

  /** Between the end of a message and the end of its erasure. */
  ghost predicate Erasing(p: Pump) {
    && (!p.pressPhase ==> p.ring != []) && !p.msg.previewPending && !p.msg.suffixPending
    && (p.erasePending ==> p.eraseCount > 0)
    && (p.eraseScheduled ==> p.erasePending && p.ring == [])
    && (if p.active then p.erasing && (p.timer || p.eraseScheduled) else p.eraseScheduled)
  }

  /** A timer fire, or the scheduled erase work. */
  datatype EraseStep = Tick | Wake

  ghost function TakeErase(u: Setup, s: Store, p: Pump, st: EraseStep): Pump
    requires |s.slots| == MAX_SLOTS
  {
    if st == Wake && p.eraseScheduled then EraseWork(p) else Fire(u, s, p)
  }

  /** One step of an erasure: nothing lost, nothing added, and only the last step reports. */
  ghost predicate ErasedOn(p: Pump, r: Pump)
    requires !p.pressPhase ==> p.ring != []
  {
    if r.active || r.eraseScheduled then
      && Erasing(r) && r.out + EraseOwed(r) == p.out + EraseOwed(p)
      && p.calls <= r.calls && forall k :: |p.calls| <= k < |r.calls| ==> r.calls[k] == EraseDueCall
    else
      && r.out == p.out + EraseOwed(p)
      && p.calls < r.calls && r.calls[|r.calls| - 1] == EraseFinishedCall
      && forall k :: |p.calls| <= k < |r.calls| - 1 ==> r.calls[k] == EraseDueCall
  }

  lemma WakeErases(p: Pump)
    requires Erasing(p) && p.eraseScheduled
    ensures ErasedOn(p, EraseWork(p)) && EraseWork(p).ring != []
    ensures EraseOwed(EraseWork(p)) == EraseOwed(p) && EraseWork(p).out == p.out
  {
    hide Halves;
    var r := EraseWork(p);
    assert r.ring + Backspaces(if r.erasePending then r.eraseCount else 0) == Backspaces(p.eraseCount);
    assert p.ring + Backspaces(p.eraseCount) == Backspaces(p.eraseCount);
    assert r.calls == p.calls + [EraseDueCall];
  }

  lemma EmitErases(p: Pump)
    requires Erasing(p) && p.active && p.ring != []
    ensures ErasedOn(p, Emit(p)) && |EraseOwed(Emit(p))| == |EraseOwed(p)| - 1
  {
    hide Halves;
    var rest := Backspaces(if p.erasePending then p.eraseCount else 0);
    if p.pressPhase {
      HalvesFirst(p.ring + rest);
      assert (p.ring + rest)[1..] == p.ring[1..] + rest;
    }
  }

  /** How many more steps an erasure can take, if the scheduled work runs when it is due. */
  ghost function EraseFuel(p: Pump): nat
    requires !p.pressPhase ==> p.ring != []
  {
    3 * |EraseOwed(p)| + if p.ring != [] then 0 else if p.eraseScheduled then 1 else 2
  }

  lemma TakeErases(u: Setup, s: Store, p: Pump, st: EraseStep)
    requires |s.slots| == MAX_SLOTS && Erasing(p)
    ensures
      var r := TakeErase(u, s, p, st);
      && ErasedOn(p, r)
      && (r.active || r.eraseScheduled ==>
            EraseFuel(r) <= EraseFuel(p) && ((st == Wake || !p.eraseScheduled) ==> EraseFuel(r) < EraseFuel(p)))
  {
    hide Halves, Backspaces;
    if st == Wake && p.eraseScheduled {
      WakeErases(p);
    } else if p.active && p.ring != [] {
      EmitErases(p);
      assert Emit(p.(timer := false)) == Emit(p);
    }
  }

  ghost function RunErase(u: Setup, s: Store, p: Pump, steps: seq<EraseStep>): Pump
    requires |s.slots| == MAX_SLOTS
  {
    if steps == [] then p else TakeErase(u, s, RunErase(u, s, p, steps[..|steps| - 1]), steps[|steps| - 1])
  }

  predicate Stopped(p: Pump) { !p.active && !p.eraseScheduled }

  lemma StoppedStays(u: Setup, s: Store, p: Pump, st: EraseStep)
    requires |s.slots| == MAX_SLOTS && Stopped(p)
    ensures TakeErase(u, s, p, st) == p.(timer := false)
  {
  }

  lemma ErasedOnChains(p: Pump, q: Pump, r: Pump)
    requires (!p.pressPhase ==> p.ring != []) && ErasedOn(p, q) && !Stopped(q) && ErasedOn(q, r)
    ensures ErasedOn(p, r)
  {
    hide Halves;
  }

  lemma {:induction false} ErasureRuns(u: Setup, s: Store, p: Pump, steps: seq<EraseStep>)
    requires |s.slots| == MAX_SLOTS && Erasing(p)
    ensures ErasedOn(p, RunErase(u, s, p, steps))
  {
    hide EraseOwed, TakeErase;
    if steps != [] {
      var front, st := steps[..|steps| - 1], steps[|steps| - 1];
      var q := RunErase(u, s, p, front);
      ErasureRuns(u, s, p, front);
      if Stopped(q) {
        StoppedStays(u, s, q, st);
      } else {
        TakeErases(u, s, q, st);
        ErasedOnChains(p, q, TakeErase(u, s, q, st));
      }
    }
  }

  /** An erasure whose scheduled work runs when due comes to an end. */
  lemma {:induction false} ErasureEnds(u: Setup, s: Store, p: Pump, n: nat)
    requires |s.slots| == MAX_SLOTS && Erasing(p)
    ensures
      var r := RunErase(u, s, p, seq(n, _ => Wake));
      Stopped(r) || (Erasing(r) && EraseFuel(r) + n <= EraseFuel(p))
  {
    hide EraseOwed, TakeErase;
    if n > 0 {
      var steps := seq(n, _ => Wake);
      assert steps[..n - 1] == seq(n - 1, _ => Wake);
      ErasureEnds(u, s, p, n - 1);
      var q := RunErase(u, s, p, steps[..n - 1]);
      if Stopped(q) {
        StoppedStays(u, s, q, Wake);
      } else {
        TakeErases(u, s, q, Wake);
      }
    }
  }

  /** The machine as the pump's erase reports reach it. */
  function Replay(c: Core, calls: seq<Call>): Core {
    if calls == [] then c
    else
      var before := Replay(c, calls[..|calls| - 1]);
      match calls[|calls| - 1]
      case EraseDueCall => EraseDue(before)
      case TypingFinishedCall => before
      case _ => EraseRestore(before)
  }

  lemma {:induction false} DuesPark(c: Core, calls: seq<Call>)
    requires !c.m.eraseActive && calls != [] && forall k :: 0 <= k < |calls| ==> calls[k] == EraseDueCall
    ensures
      var parked := Replay(c, calls);
      parked == c.(m := c.m.(state := TypingErase, eraseReturn := c.m.state, eraseActive := true))
  {
    if |calls| > 1 {
      DuesPark(c, calls[..|calls| - 1]);
    }
  }

  /** However many batches it takes, the erase gives back the state the first batch found. */
  lemma BatchesReturnToParked(c: Core, calls: seq<Call>)
    requires !c.m.eraseActive && calls != [] && calls[|calls| - 1] == EraseFinishedCall
    requires forall k :: 0 <= k < |calls| - 1 ==> calls[k] == EraseDueCall
    ensures Replay(c, calls).m.state == c.m.state && !Replay(c, calls).m.eraseActive
  {
    if |calls| > 1 {
      DuesPark(c, calls[..|calls| - 1]);
    }
  }

  lemma {:induction false} VisibleAtMost(keys: seq<Keystroke>)
    ensures Visible(keys) <= |keys|
  {
    if keys != [] {
      VisibleAtMost(keys[1..]);
    }
  }

  /** After a whole message the count is exactly the visible characters, and their erasure is due. */
  lemma CountedWhole(u: Setup, s: Store, p0: Pump, spec: Spec, n: nat)
    requires Types(u, spec.kind) && Fits(u, s, spec) && spec.kind != FbStatusHeader && |Direct(u, s, spec)| < 0x1_0000
    requires !Fires(u, s, BeginMessage(u, s, p0, spec), n).active
    ensures
      var p, keys := Fires(u, s, BeginMessage(u, s, p0, spec), n), Typed(u.locale, Direct(u, s, spec));
      p.eraseCount == Visible(keys) && (u.eraseEnabled && Visible(keys) > 0 ==> EraseDueLater(p))
  {
    hide Fires, Direct, Fits, Types, Unpressed, RestText, Owed;
    SpeakStarts(u, s, p0, spec);
    VisibleAtMost(Typed(u.locale, Direct(u, s, spec)));
    assert !BeginMessage(u, s, p0, spec).msg.statusMode by { NotStatus(u, s, p0, spec); }
    FiresAdvance(u, s, BeginMessage(u, s, p0, spec), n);
  }

  /** A status dump, header and lines: its typing is never erased. */
  predicate IsDump(u: Setup, kind: FbKind) {
    kind == FbStatusHeader && u.statusDetail >= STATUS_USED && MAX_SLOTS > 0
  }

  /**
   * An erase is scheduled by a message exactly when the knob is on, the message is no status dump and it
   * left something visible.
   */
  lemma EraseIffAsked(u: Setup, s: Store, p0: Pump, spec: Spec, n: nat)
    requires Types(u, spec.kind) && Fits(u, s, spec) && |Direct(u, s, spec)| < 0x1_0000
    requires !p0.eraseScheduled && !Fires(u, s, BeginMessage(u, s, p0, spec), n).active
    ensures
      Fires(u, s, BeginMessage(u, s, p0, spec), n).eraseScheduled
      <==> u.eraseEnabled && !IsDump(u, spec.kind) && Visible(Typed(u.locale, Direct(u, s, spec))) > 0
  {
    hide Fires, Direct, Fits, Types, Unpressed, RestText, Owed;
    SpeakStarts(u, s, p0, spec);
    VisibleAtMost(Typed(u.locale, Direct(u, s, spec)));
    assert BeginMessage(u, s, p0, spec).msg.statusMode == IsDump(u, spec.kind) by {
      FitsSlots(u, s, spec);
      DumpIsStatus(u, s, p0, spec);
    }
    FiresAdvance(u, s, BeginMessage(u, s, p0, spec), n);
  }

  lemma DumpIsStatus(u: Setup, s: Store, p0: Pump, spec: Spec)
    requires |s.slots| == MAX_SLOTS && Types(u, spec.kind)
    ensures BeginMessage(u, s, p0, spec).msg.statusMode == IsDump(u, spec.kind)
  {
    hide BuildFor;
  }

  lemma NotStatus(u: Setup, s: Store, p0: Pump, spec: Spec)
    requires |s.slots| == MAX_SLOTS && Types(u, spec.kind) && spec.kind != FbStatusHeader
    ensures !BeginMessage(u, s, p0, spec).msg.statusMode
  {
    hide BuildFor;
  }

  lemma ErasureConserves(u: Setup, s: Store, p: Pump, steps: seq<EraseStep>, c: Core)
    requires |s.slots| == MAX_SLOTS && EraseDueLater(p) && !c.m.eraseActive
    ensures
      var r := RunErase(u, s, p, steps);
      Stopped(r) ==>
        && r.out == p.out + Halves(Backspaces(p.eraseCount))
        && |p.calls| <= |r.calls| && Replay(c, r.calls[|p.calls|..]).m.state == c.m.state
    ensures Stopped(RunErase(u, s, p, seq(6 * p.eraseCount + 2, _ => Wake)))
  {
    hide RunErase, Halves;
    var r := RunErase(u, s, p, steps);
    assert p.ring + Backspaces(p.eraseCount) == Backspaces(p.eraseCount);
    ErasureRuns(u, s, p, steps);
    if Stopped(r) {
      BatchesReturnToParked(c, r.calls[|p.calls|..]);
    }
    ErasureEnds(u, s, p, 6 * p.eraseCount + 2);
  }

  /**
   * Auto-erase conserves length: after an uninterrupted non-status message of fewer than 65536
   * characters, however timer fires and erase work interleave, the erasure that completes has raised
   * one backspace for each visible character of the message, over all its batches, and the machine is
   * back in the state the first batch found; and it does complete.
   */
  lemma AutoEraseConserves(u: Setup, s: Store, p0: Pump, spec: Spec, n: nat, steps: seq<EraseStep>, c: Core)
    requires Types(u, spec.kind) && Fits(u, s, spec) && spec.kind != FbStatusHeader
    requires u.eraseEnabled && |Direct(u, s, spec)| < 0x1_0000 && Visible(Typed(u.locale, Direct(u, s, spec))) > 0
    requires !Fires(u, s, BeginMessage(u, s, p0, spec), n).active && !c.m.eraseActive
    ensures
      var p, keys := Fires(u, s, BeginMessage(u, s, p0, spec), n), Typed(u.locale, Direct(u, s, spec));
      var r := RunErase(u, s, p, steps);
      && (Stopped(r) ==>
            && r.out == p.out + Halves(Backspaces(Visible(keys)))
            && |p.calls| <= |r.calls| && Replay(c, r.calls[|p.calls|..]).m.state == c.m.state)
      && Stopped(RunErase(u, s, p, seq(6 * Visible(keys) + 2, _ => Wake)))
  {
    hide Fires, Direct, Total, Types, RunErase, Halves, Visible, BeginMessage;
    CountedWhole(u, s, p0, spec, n);
    ErasureConserves(u, s, Fires(u, s, BeginMessage(u, s, p0, spec), n), steps, c);
  }

  // ---- what interrupts a message ----------------------------------------------------------------

  /** A cancelled erase or output is inert: no stale fire raises or reports anything more. */
  lemma CancelledIsInert(u: Setup, s: Store, p: Pump, n: nat)
    requires |s.slots| == MAX_SLOTS
    ensures p.erasing ==> var q := CancelErase(p);
      Fires(u, s, q, n).out == p.out && Fires(u, s, q, n).calls == p.calls + [EraseCancelCall]
    ensures CancelOutput(p).1 ==> var q := CancelOutput(p).0;
      Fires(u, s, q, n).out == p.out && Fires(u, s, q, n).calls == p.calls + [TypingFinishedCall]
  {
    hide Fire;
    if p.erasing {
      InertFires(u, s, CancelErase(p), n);
    }
    if CancelOutput(p).1 {
      InertFires(u, s, CancelOutput(p).0, n);
    }
  }

  lemma {:induction false} InertFires(u: Setup, s: Store, p: Pump, n: nat)
    requires |s.slots| == MAX_SLOTS && !p.active
    ensures var r := Fires(u, s, p, n); !r.active && r.out == p.out && r.calls == p.calls
  {
    hide Fire;
    if n > 0 {
      InertFires(u, s, p, n - 1);
      StaleFire(u, s, Fires(u, s, p, n - 1));
    }
  }

  /** A dump and a SAVED preview: what a key may interrupt. */
  predicate IsLong(u: Setup, kind: FbKind) { kind == FbStatusHeader || (kind == FbSaved && u.level >= 4) }

  lemma FireKeepsInterruptible(u: Setup, s: Store, p: Pump)
    requires |s.slots| == MAX_SLOTS
    ensures Fire(u, s, p).msg.interruptible == p.msg.interruptible
    ensures !p.erasing ==> !Fire(u, s, p).erasing
  {
    hide Drained, CloseUp, Refill, Emit;
    var ready := CloseUp(u, s, Refill(u, s, p.(timer := false)));
    ReadyKeepsInterruptible(u, s, p.(timer := false));
    DrainedKeepsInterruptible(u, s, ready);
    if ready.ring != [] {
      EmitKeepsInterruptible(ready);
    }
  }

  lemma ReadyKeepsInterruptible(u: Setup, s: Store, p: Pump)
    requires |s.slots| == MAX_SLOTS
    ensures
      var r := CloseUp(u, s, Refill(u, s, p));
      r.msg.interruptible == p.msg.interruptible && r.erasing == p.erasing
  {
    hide CloseUp, Refill;
    RefillKeepsInterruptible(u, s, p);
    CloseKeepsInterruptible(u, s, Refill(u, s, p));
  }

  lemma RefillKeepsInterruptible(u: Setup, s: Store, p: Pump)
    requires |s.slots| == MAX_SLOTS
    ensures Refill(u, s, p).msg.interruptible == p.msg.interruptible && Refill(u, s, p).erasing == p.erasing
  {
    hide Walk, Typed;
  }

  lemma CloseKeepsInterruptible(u: Setup, s: Store, p: Pump)
    requires |s.slots| == MAX_SLOTS
    ensures CloseUp(u, s, p).msg.interruptible == p.msg.interruptible && CloseUp(u, s, p).erasing == p.erasing
  {
    hide SuffixFor, Fill;
  }

  lemma EmitKeepsInterruptible(p: Pump)
    requires p.ring != []
    ensures Emit(p).msg.interruptible == p.msg.interruptible && Emit(p).erasing == p.erasing
  {
  }

  lemma DrainedKeepsInterruptible(u: Setup, s: Store, p: Pump)
    requires |s.slots| == MAX_SLOTS
    ensures Drained(u, s, p).msg.interruptible == p.msg.interruptible
    ensures !p.erasing ==> !Drained(u, s, p).erasing
  {
    hide BuildFor, Fill;
  }

  lemma {:induction false} FiresKeepInterruptible(u: Setup, s: Store, p: Pump, n: nat)
    requires |s.slots| == MAX_SLOTS && !p.erasing
    ensures var r := Fires(u, s, p, n); r.msg.interruptible == p.msg.interruptible && !r.erasing
  {
    hide Fire;
    if n > 0 {
      FiresKeepInterruptible(u, s, p, n - 1);
      FireKeepsInterruptible(u, s, Fires(u, s, p, n - 1));
    }
  }

  /** While a message types, an interrupting key aborts it exactly when it is a long one. */
  lemma OnlyLongMessagesAbort(u: Setup, s: Store, p0: Pump, spec: Spec, n: nat)
    requires |s.slots| == MAX_SLOTS && Types(u, spec.kind)
    ensures
      var r := Fires(u, s, BeginMessage(u, s, p0, spec), n);
      CancelOutput(r).1 <==> r.active && IsLong(u, spec.kind)
  {
    hide BuildFor, Fire, Fires;
    FiresKeepInterruptible(u, s, BeginMessage(u, s, p0, spec), n);
  }

  // ---- what the feedback level lets through --------------------------------------------------------

  /** What goes wrong without a key being pressed for it, or loses a macro. */
  predicate IsFault(kind: FbKind) {
    kind in {FbOverflow, FbSaveFailed, FbDeleteFailed, FbSaveQfull, FbDeleteQfull}
  }

  /**
   * A higher level lets through all that a lower one does; the lowest only faults, the one above it all
   * but two empty slots and the chained preview; a knob always answers, and below every level nothing else.
   */
  lemma LevelsNest(u: Setup, v: Setup, kind: FbKind)
    requires kind != FbStatusHeader && kind != FbKnob
    ensures u.level <= v.level && Types(u, kind) ==> Types(v, kind)
    ensures u.level == 0 ==> !Types(u, kind)
    ensures u.level == 1 ==> (Types(u, kind) <==> IsFault(kind))
    ensures u.level == 2 ==> (Types(u, kind) <==> kind !in {FbSlotEmpty, FbChainEmpty, FbChainInsert})
    ensures u.level == 3 ==> (Types(u, kind) <==> kind != FbChainInsert)
    ensures u.level >= 4 ==> Types(u, kind)
    ensures Types(u, FbKnob)
  {
  }

  /** SAVED shows the macro at the highest level only; a status line at the detail that asks for it. */
  lemma PreviewsWhereAsked(u: Setup, s: Store, spec: Spec, i: int, first: bool)
    requires |s.slots| == MAX_SLOTS && spec.kind == FbSaved
    ensures BuildFor(u, s, Resolved(u, spec), true).previewFollows <==> u.level >= 4
    ensures i >= 0 ==>
      (BuildFor(u, s, LineSpec(u, i), first).previewFollows <==> s.View(i) != [] && u.statusDetail >= 3)
  {
    hide SlotRef, StatusLabel;
  }

  /** A key that comes before a due erase has begun cancels it for good: no backspace, no report. */
  lemma {:induction false} CancelledEraseNeverRuns(u: Setup, s: Store, p: Pump, steps: seq<EraseStep>)
    requires |s.slots| == MAX_SLOTS && EraseDueLater(p) && !p.erasing
    ensures
      var r := RunErase(u, s, CancelErase(p), steps);
      Stopped(r) && r.out == p.out && r.calls == p.calls
  {
    hide TakeErase;
    if steps != [] {
      var front := steps[..|steps| - 1];
      CancelledEraseNeverRuns(u, s, p, front);
      StoppedStays(u, s, RunErase(u, s, CancelErase(p), front), steps[|steps| - 1]);
    }
  }

  // ---- an erase that catches the next message -----------------------------------------------------

  /** What can reach the pump: a timer fire, the erase work, or a key or binding that interrupts. */
  datatype PumpStep = Fired | Woken | Interrupted

  ghost function TakePump(u: Setup, s: Store, p: Pump, st: PumpStep): Pump
    requires |s.slots| == MAX_SLOTS
  {
    match st
    case Fired => Fire(u, s, p)
    case Woken => if p.eraseScheduled then EraseWork(p) else p
    case Interrupted => CancelOutput(CancelErase(p)).0
  }

  ghost function RunPump(u: Setup, s: Store, p: Pump, steps: seq<PumpStep>): Pump
    requires |s.slots| == MAX_SLOTS
  {
    if steps == [] then p else TakePump(u, s, RunPump(u, s, p, steps[..|steps| - 1]), steps[|steps| - 1])
  }

  /** Nothing but backspaces is left to type, and nothing of the message. */
  predicate Dead(p: Pump) {
    && (p.active ==> p.erasing)
    && !p.msg.previewPending && !p.msg.suffixPending && !p.msg.statusMode && !p.msg.interruptible
  }

  ghost predicate NeverFinishes(p: Pump, r: Pump) {
    p.calls <= r.calls && forall k :: |p.calls| <= k < |r.calls| ==> r.calls[k] != TypingFinishedCall
  }

  lemma DeadStep(u: Setup, s: Store, p: Pump, st: PumpStep)
    requires |s.slots| == MAX_SLOTS && Dead(p)
    ensures Dead(TakePump(u, s, p, st)) && NeverFinishes(p, TakePump(u, s, p, st))
  {
  }

  lemma {:induction false} DeadStays(u: Setup, s: Store, p: Pump, steps: seq<PumpStep>)
    requires |s.slots| == MAX_SLOTS && Dead(p)
    ensures Dead(RunPump(u, s, p, steps)) && NeverFinishes(p, RunPump(u, s, p, steps))
  {
    hide TakePump, Dead;
    if steps != [] {
      DeadStays(u, s, p, steps[..|steps| - 1]);
      DeadStep(u, s, RunPump(u, s, p, steps[..|steps| - 1]), steps[|steps| - 1]);
    }
  }

  /**
   * The premise that no erase is pending when a message starts is needed, since starting one does not
   * clear it. If the erase work runs in the middle of a message, the message survives exactly when none
   * of its characters has been counted yet; otherwise its typing_finished is never reported, whatever
   * fires, erase work and interrupting keys follow.
   */
  lemma PendingEraseKillsMessage(u: Setup, s: Store, p: Pump, steps: seq<PumpStep>)
    requires Typing(u, s, p) && p.eraseScheduled && p.erasePending
    ensures
      if p.eraseCount == 0 then
        Typing(u, s, EraseWork(p)) && Owed(u, s, EraseWork(p)) == Owed(u, s, p) && EraseWork(p).calls == p.calls
      else
        NeverFinishes(p, RunPump(u, s, EraseWork(p), steps))
  {
    hide Fits, RestText, Halves, RunPump;
    if p.eraseCount > 0 {
      DeadStays(u, s, EraseWork(p), steps);
    }
  }

  /** The first fire of a message that opens with a visible character. */
  lemma FirstFire(u: Setup, s: Store, p: Pump)
    requires |s.slots| == MAX_SLOTS && p.active && p.pressPhase && !p.erasing && p.eraseCount == 0
    requires p.ring != [] && p.ring[0].keycode != HID_RETURN
    ensures
      Fire(u, s, p)
      == p.(timer := true, pressPhase := false, eraseCount := 1, out := p.out + [Out(p.ring[0], true)])
  {
  }

  /**
   * The premise of PendingEraseKillsMessage is reached: begin any message that opens with a visible
   * character while the erase of the last one is due, and let its first key go out.
   */
  lemma EraseCatchesNextMessage(u: Setup, s: Store, p0: Pump, spec: Spec)
    requires EraseDueLater(p0) && Types(u, spec.kind) && Fits(u, s, spec)
    requires
      var text := BuildFor(u, s, Resolved(u, spec), true).text;
      text != "" && AsciiToHid(u.locale, text[0]).keycode != HID_RETURN
    ensures
      var p := Fires(u, s, BeginMessage(u, s, p0, spec), 1);
      Typing(u, s, p) && p.eraseScheduled && p.erasePending && p.eraseCount == 1 && p.calls == p0.calls
  {
    hide BuildFor, Fits, Total, Types, Fire;
    FitsSlots(u, s, spec);
    var p1 := BeginMessage(u, s, p0, spec);
    SpeakStarts(u, s, p0, spec);
    FillsWhole(u, s, Resolved(u, spec), true);
    FirstFire(u, s, p1);
    assert Fires(u, s, p1, 0) == p1;
    FireAdvances(u, s, p1);
  }

  lemma FitsSlots(u: Setup, s: Store, spec: Spec)
    requires Fits(u, s, spec)
    ensures |s.slots| == MAX_SLOTS
  {
  }

  /** The cue for a save the queue refuses opens with a visible character, on every layout. */
  lemma QueueFullCueIsVisible(u: Setup, s: Store, i: int)
    requires |s.slots| == MAX_SLOTS
    ensures
      var text := BuildFor(u, s, Resolved(u, QueueFullCue(i)), true).text;
      text != "" && AsciiToHid(u.locale, text[0]).keycode != HID_RETURN
  {
    hide SlotRef, GatherFacts;
  }

  function QueueFullCue(i: int): Spec { Spec(FbSaveQfull, i, -1, false, "") }

  /**
   * A real instance: a message has been typed whole with auto-erase on, and its typing_finished finds
   * the storage queue full. The cue that says so is begun inside that report; if the erase delay
   * runs out after its first key, its own typing_finished is never reported.
   */
  lemma QueueFullCueDies(u: Setup, s: Store, p0: Pump, spec: Spec, n: nat, i: int, steps: seq<PumpStep>)
    requires Types(u, spec.kind) && Fits(u, s, spec) && spec.kind != FbStatusHeader && u.level >= LEVEL_ERROR
    requires u.eraseEnabled && |Direct(u, s, spec)| < 0x1_0000 && Visible(Typed(u.locale, Direct(u, s, spec))) > 0
    requires !Fires(u, s, BeginMessage(u, s, p0, spec), n).active && i < MAX_SLOTS
    ensures
      var told := Fires(u, s, BeginMessage(u, s, p0, spec), n);
      var cue := Fires(u, s, BeginMessage(u, s, told, QueueFullCue(i)), 1);
      && Types(u, FbSaveQfull) && told.calls == p0.calls + [TypingFinishedCall]
      && cue.active && cue.eraseScheduled && cue.calls == told.calls
      && NeverFinishes(cue, RunPump(u, s, EraseWork(cue), steps))
  {
    hide Fires, Direct, Total, RunPump, Halves, Visible, BeginMessage, EraseWork, Typed;
    CountedWhole(u, s, p0, spec, n);
    SteadyStreaming(u, s, p0, spec, n);
    var told := Fires(u, s, BeginMessage(u, s, p0, spec), n);
    QueueFullCueIsVisible(u, s, i);
    EraseCatchesNextMessage(u, s, told, QueueFullCue(i));
    PendingEraseKillsMessage(u, s, Fires(u, s, BeginMessage(u, s, told, QueueFullCue(i)), 1), steps);
  }
}
