/**
 * dm_feedback_pump.c as it runs: the emit loop, the status walk and the erase scheduler over a ring
 * of keystrokes. Every method is proved to do to the whole pump what PumpSpec says.
 */
module FeedbackPump {
  import opened Config
  import opened StoreSpec
  import opened SlotArena
  import opened Keymaps
  import opened Rings
  import opened Render
  import opened Messages
  import opened MachineSpec
  import opened PumpSpec

  class Feedback {
    const store: SlotStore
    const locale: Locale
    const statusDetail: nat
    const headerSep: string
    const slotSep: string
    var style: Style
    var level: nat
    var eraseEnabled: bool

    const ring: Ring<Keystroke>
    var pressPhase: bool
    var active: bool
    var timer: bool             // the emit timer, or the work item it submits, is due
    var msg: Message            // the spec being typed and its streaming state
    var erasing: bool
    var erasePending: bool
    var eraseCount: U16
    var eraseScheduled: bool    // the delayed erase work is due
    var out: seq<Out>           // halves raised to the host
    var calls: seq<Call>        // reports made to the machine

    ghost function Repr(): set<object> { {this, ring, ring.cells} }

    ghost predicate Valid()
      reads ring, store, store.arena, store.meta, store.pendingDelete, store.generation, store.draft
    {
      && ring.Valid() && ring.cells.Length == RING_KEYS + 1
      && store.Valid() && |store.model.slots| == MAX_SLOTS
    }

    function Wiring(): Setup
      reads this
    {
      Setup(locale, style, level, eraseEnabled, statusDetail, headerSep, slotSep)
    }

    ghost function Value(): Pump
      requires ring.Valid()
      reads this, ring, ring.cells
    {
      Pump(ring.Contents(), pressPhase, active, timer, msg,
           erasing, erasePending, eraseCount, eraseScheduled, out, calls)
    }

    constructor (store: SlotStore, locale: Locale, statusDetail: nat, headerSep: string, slotSep: string,
                 style: Style, level: nat, eraseEnabled: bool)
      requires store.Valid() && |store.model.slots| == MAX_SLOTS
      ensures Valid() && fresh(ring) && fresh(ring.cells) && this.store == store
      ensures Wiring() == Setup(locale, style, level, eraseEnabled, statusDetail, headerSep, slotSep)
      ensures !active && !eraseScheduled && ring.Contents() == [] && out == [] && calls == []
    {
      this.store, this.locale, this.statusDetail := store, locale, statusDetail;
      this.headerSep, this.slotSep := headerSep, slotSep;
      this.style, this.level, this.eraseEnabled := style, level, eraseEnabled;
      ring := new Ring(RING_KEYS + 1);
      pressPhase, active, timer := true, false, false;
      msg := Message(Spec(FbRec, -1, -1, false, ""), false, false, START, false, 0, false, false);
      erasing, erasePending, eraseCount, eraseScheduled := false, false, 0, false;
      out, calls := [], [];
    }

    // ---- filling the ring ---------------------------------------------------------------

    /** The builder's emit_str into an empty ring; what does not fit is dropped. */
    method EmitText(text: string)
      requires ring.Valid() && ring.cells.Length == RING_KEYS + 1 && ring.Contents() == []
      modifies ring`head, ring.cells
      ensures ring.Valid() && ring.Contents() == Fill(Wiring(), text)
    {
      hide AsciiToHid;
      for k := 0 to |text|
        invariant ring.Valid() && ring.Contents() == Fill(Wiring(), text[..k])
      {
        FillNext(Wiring(), text, k);
        if ring.Space() >= 1 {
          var _ := ring.Push(AsciiToHid(locale, text[k]));
        }
      }
      assert text[..|text|] == text;
    }

    method GatherNow(slot: int, firstSlot: bool) returns (f: Facts)
      requires Valid()
      ensures f == GatherFacts(Wiring(), store.model, slot, firstSlot)
    {
      hide SlotStore.Valid;
      var filled := CountAll();
      var events: seq<Event>, empty := [], false;
      if slot >= 0 {
        events := store.Get(slot);
        empty := store.IsEmpty(slot);
      }
      f := Facts(filled, NVS_SLOTS, MAX_SLOTS, |events|, empty, headerSep, slotSep, firstSlot);
    }

    method CountAll() returns (n: nat)
      requires Valid()
      ensures n == |FilledSlots(store.model, 0, MAX_SLOTS)|
    {
      n := store.CountFilled(AllSlots);
      assert FilledOf(store.model, AllSlots) == FilledSlots(store.model, 0, MAX_SLOTS);
    }

    /** Build a message's fixed text into the empty ring. */
    method BuildMessage(spec: Spec, firstSlot: bool) returns (follows: bool)
      requires Valid() && ring.Contents() == []
      modifies ring`head, ring.cells
      ensures Valid()
      ensures
        var built := BuildFor(Wiring(), store.model, spec, firstSlot);
        ring.Contents() == Fill(Wiring(), built.text) && follows == built.previewFollows
    {
      hide Build, GatherFacts, Fill;
      var facts := GatherNow(spec.slot, firstSlot);
      var built := Build(spec, style, locale, facts);
      EmitText(built.text);
      follows := built.previewFollows;
    }

    /** Refill the empty ring from the preview walk. */
    method BuildPreview()
      requires Valid() && ring.Contents() == [] && msg.previewPending
      modifies this`msg, ring, ring.cells
      ensures Valid() && Value() == Refill(Wiring(), store.model, old(Value()))
    {
      hide Walk, SlotStore.Valid;
      var events: seq<Event> := [];
      if msg.spec.slot >= 0 {
        events := store.Get(msg.spec.slot);
      }
      var done, cur := StreamInto(events, msg.cursor);
      msg := msg.(cursor := cur, previewPending := !done);
    }

    method StreamInto(events: seq<Event>, start: Cursor) returns (done: bool, cur: Cursor)
      requires ring.Valid() && ring.cells.Length == RING_KEYS + 1 && ring.Contents() == []
      modifies ring, ring.cells
      ensures ring.Valid()
      ensures
        var w := Walk(locale, events, start, RING_KEYS);
        done == w.done && cur == w.cur && ring.Contents() == Typed(locale, w.text)
    {
      hide Walk;
      var sink := new CharSink.OverRing(ring, locale);
      done, cur := RenderSlot(events, locale, sink, start);
    }

    method BuildSuffix()
      requires Valid() && ring.Contents() == [] && msg.suffixPending && !msg.previewPending
      modifies this`msg, ring`head, ring.cells
      ensures Valid() && Value() == CloseUp(Wiring(), store.model, old(Value()))
    {
      hide Suffix, GatherFacts, Fill, SlotStore.Valid;
      var facts := GatherNow(msg.spec.slot, msg.firstSlot);
      EmitText(Suffix(msg.spec, style, locale, facts));
      msg := msg.(suffixPending := false);
    }

    // ---- typing ---------------------------------------------------------------------------

    /** dm_feedback_speak. */
    method Begin(spec: Spec)
      requires Valid()
      modifies Repr()
      ensures Valid() && Wiring() == old(Wiring())
      ensures Value() == BeginMessage(Wiring(), store.model, old(Value()), spec)
    {
      hide SlotStore.Valid, BuildFor, Types, Opened, Resolved, Fill;
      if !Types(Wiring(), spec.kind) {
        calls := calls + [TypingFinishedCall];
        return;
      }
      Rewind();
      var shown := Resolved(Wiring(), spec);
      var follows := BuildMessage(shown, true);
      Open(Opened(Wiring(), shown, follows));
    }

    method Open(m: Message)
      requires ring.Valid()
      modifies this`msg, this`erasing, this`active, this`timer, this`eraseCount
      ensures Value() == old(Value()).(active := true, timer := true, msg := m, erasing := false, eraseCount := 0)
    {
      eraseCount, erasing := 0, false;
      msg, active, timer := m, true, true;
    }

    /** An empty ring, ready for a press. */
    method Rewind()
      requires ring.Valid()
      modifies this`pressPhase, ring`head, ring`tail
      ensures ring.Valid() && ring.Contents() == [] && Value() == old(Value()).(ring := [], pressPhase := true)
    {
      ring.Reset();
      pressPhase := true;
    }

    /** Skip to the next listed slot. */
    method FindListed(from: nat) returns (slot: nat)
      requires Valid()
      ensures slot == NextListed(Wiring(), store.model, from)
    {
      hide SlotStore.Valid;
      slot := from;
      while slot < MAX_SLOTS
        invariant NextListed(Wiring(), store.model, slot) == NextListed(Wiring(), store.model, from)
        decreases MAX_SLOTS - slot
      {
        var empty := store.IsEmpty(slot);
        if statusDetail >= STATUS_FULL || !empty {
          return;
        }
        slot := slot + 1;
      }
    }

    /** Start the next status line; false when the sequence is done. */
    method AdvanceStatus() returns (started: bool)
      requires Valid()
      modifies Repr()
      ensures Valid() && Wiring() == old(Wiring())
      ensures Value() == StatusAdvance(Wiring(), store.model, old(Value()))
      ensures started == (NextListed(Wiring(), store.model, old(msg.nextSlot)) < MAX_SLOTS)
    {
      hide SlotStore.Valid, NextListed, BuildFor, LineMessage, LineSpec, Fill;
      var slot := FindListed(msg.nextSlot);
      started := slot < MAX_SLOTS;
      if !started {
        msg := msg.(nextSlot := slot);
        return;
      }
      Rewind();
      var follows := BuildMessage(LineSpec(Wiring(), slot), msg.firstSlot);
      msg := LineMessage(Wiring(), msg, slot, follows);
      timer := true;
    }

    /** The ring drained and the current line owes nothing more. */
    method OnDrained()
      requires Valid()
      modifies Repr()
      ensures Valid() && Wiring() == old(Wiring())
      ensures Value() == Drained(Wiring(), store.model, old(Value()))
    {
      hide SlotStore.Valid, NextListed, StatusAdvance;
      if erasing {
        EraseBatchDone();
        return;
      }
      if msg.statusMode {
        NextNotBefore(Wiring(), store.model, Value());
        var started := AdvanceStatus();
        if started {
          return;
        }
      }
      FinishMessage();
    }

    method EraseBatchDone()
      requires Valid()
      modifies this
      ensures Valid() && Wiring() == old(Wiring()) && Value() == EraseDrained(old(Value()))
    {
      hide SlotStore.Valid;
      if erasePending && eraseCount > 0 {
        eraseScheduled := true;
        return;
      }
      erasing, active := false, false;
      calls := calls + [EraseFinishedCall];
    }

    method FinishMessage()
      requires Valid()
      modifies this
      ensures Valid() && Wiring() == old(Wiring()) && Value() == Finish(Wiring(), old(Value()))
    {
      hide SlotStore.Valid;
      var wasStatus := msg.statusMode;
      msg, active := msg.(statusMode := false), false;
      if eraseEnabled && eraseCount > 0 && !wasStatus {
        erasePending, eraseScheduled := true, true;
      }
      calls := calls + [TypingFinishedCall];
    }

    /** Raise one half of the oldest keystroke; the tail advances after the release. */
    method EmitHalf()
      requires Valid() && ring.Contents() != []
      modifies this, ring`tail
      ensures Valid() && Wiring() == old(Wiring()) && Value() == Emit(old(Value()))
    {
      hide SlotStore.Valid;
      ghost var waiting := ring.Contents();
      HeldPop(ring.cells[..], ring.tail, ring.head);
      var key := ring.cells[ring.tail];
      assert key == waiting[0];
      out := out + [Out(key, pressPhase)];
      if pressPhase {
        pressPhase := false;
        if !erasing && key.keycode != HID_RETURN {
          eraseCount := (eraseCount + 1) % 0x1_0000;
        }
      } else {
        pressPhase := true;
        var _, _ := ring.Pop();
        assert ring.Contents() == waiting[1..];
      }
      timer := true;
    }

    /** One timer fire: refill if the ring emptied mid-walk, then emit one half. */
    method EmitIteration()
      requires Valid()
      modifies Repr()
      ensures Valid() && Wiring() == old(Wiring())
      ensures Value() == Fire(Wiring(), store.model, old(Value()))
    {
      hide SlotStore.Valid, Drained, Emit, Walk, SuffixFor, Fill;
      timer := false;
      if !active {
        return;
      }
      if ring.IsEmpty() && msg.previewPending {
        BuildPreview();
      }
      if ring.IsEmpty() && msg.suffixPending && !msg.previewPending {
        BuildSuffix();
      }
      if ring.IsEmpty() {
        OnDrained();
      } else {
        EmitHalf();
      }
    }

    // ---- erasing ------------------------------------------------------------------------------

    method PushBackspaces(n: nat)
      requires ring.Valid() && ring.cells.Length == RING_KEYS + 1 && ring.Contents() == [] && n <= RING_KEYS
      modifies ring`head, ring.cells
      ensures ring.Valid() && ring.Contents() == Backspaces(n)
    {
      for k := 0 to n
        invariant ring.Valid() && ring.Contents() == Backspaces(k)
      {
        var _ := ring.Push(BACKSPACE);
      }
    }

    /** erase_work_handler. */
    method RunEraseWork()
      requires Valid() && eraseScheduled
      modifies Repr()
      ensures Valid() && Wiring() == old(Wiring()) && Value() == EraseWork(old(Value()))
    {
      hide SlotStore.Valid, Backspaces, Dropped;
      eraseScheduled := false;
      if !erasePending || eraseCount == 0 {
        erasePending := false;
        return;
      }
      calls := calls + [EraseDueCall];
      StartBatch();
    }

    /** One batch of backspaces, the rest of the count kept for the next. */
    method StartBatch()
      requires Valid() && erasePending && eraseCount > 0
      modifies Repr()
      ensures Valid() && Wiring() == old(Wiring())
      ensures
        var p := old(Value());
        var batch := if p.eraseCount < RING_KEYS then p.eraseCount else RING_KEYS;
        Value() == p.(ring := Backspaces(batch), pressPhase := true, active := true, timer := true,
                      msg := Dropped(p.msg),
                      erasing := true, erasePending := p.eraseCount > batch, eraseCount := p.eraseCount - batch)
    {
      hide SlotStore.Valid, Backspaces, Dropped;
      var batch := if eraseCount < RING_KEYS then eraseCount else RING_KEYS;
      Rewind();
      PushBackspaces(batch);
      MarkErasing(eraseCount - batch);
    }

    method MarkErasing(left: U16)
      requires ring.Valid()
      modifies this`msg, this`erasing, this`active, this`timer, this`eraseCount, this`erasePending
      ensures Value() == old(Value()).(active := true, timer := true, msg := Dropped(old(msg)), erasing := true,
                                       erasePending := left > 0, eraseCount := left)
    {
      eraseCount, erasePending := left, left > 0;
      msg, erasing, active, timer := Dropped(msg), true, true, true;
    }

    method Cancel()
      requires Valid()
      modifies Repr()
      ensures Valid() && Wiring() == old(Wiring()) && Value() == CancelErase(old(Value()))
    {
      hide SlotStore.Valid;
      if erasePending {
        eraseScheduled, erasePending := false, false;
      }
      if erasing {
        ring.Reset();
        timer, erasing, active, calls := false, false, false, calls + [EraseCancelCall];
      }
    }

    method Abort() returns (aborted: bool)
      requires Valid()
      modifies Repr()
      ensures Valid() && Wiring() == old(Wiring()) && (Value(), aborted) == CancelOutput(old(Value()))
    {
      hide SlotStore.Valid;
      aborted := active && !erasing && msg.interruptible;
      if aborted {
        ring.Reset();
        timer, active, msg, calls := false, false, Dropped(msg), calls + [TypingFinishedCall];
      }
    }
  }

  /** Advancing past the last listed slot leaves the rest of the pump alone. */
  lemma NextNotBefore(u: Setup, s: Store, p: Pump)
    requires |s.slots| == MAX_SLOTS
    ensures NextListed(u, s, p.msg.nextSlot) >= MAX_SLOTS ==>
      StatusAdvance(u, s, p) == p.(msg := p.msg.(nextSlot := NextListed(u, s, p.msg.nextSlot)))
  {
  }

  lemma FillNext(u: Setup, text: string, k: nat)
    requires k < |text|
    ensures Fill(u, text[..k + 1]) == Fill(u, text[..k]) + if k < RING_KEYS then [AsciiToHid(u.locale, text[k])] else []
  {
    hide AsciiToHid;
  }
}
