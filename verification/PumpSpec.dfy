/**
 * What dm_feedback_pump.c means: typing a message through a ring of 63 keystrokes, one press or
 * release per timer fire, refilled from a resumable preview walk; and the erase that undoes it.
 * FeedbackPump.dfy proves that the imperative pump computes these functions.
 */
module PumpSpec {
  import opened Config
  import opened StoreSpec
  import opened Keymaps
  import opened Render
  import opened Messages
  import opened MachineSpec

  const RING_KEYS: nat := 63

  const LEVEL_ERROR: nat := 1
  const LEVEL_COMMAND: nat := 2
  const LEVEL_BASIC: nat := 3
  const LEVEL_VERBOSE: nat := 4

  const STATUS_COUNT: nat := 1
  const STATUS_USED: nat := 2
  const STATUS_USED_PREVIEW: nat := 3
  const STATUS_FULL: nat := 4

  /** The pump's wiring and knobs; no command can change them while a message types. */
  datatype Setup = Setup(
    locale: Locale, style: Style, level: nat, eraseEnabled: bool,
    statusDetail: nat, headerSep: string, slotSep: string)

  /** Half a keystroke raised to the host. */
  datatype Out = Out(key: Keystroke, pressed: bool)

  /** Reports up to the machine. */
  datatype Call = TypingFinishedCall | EraseDueCall | EraseFinishedCall | EraseCancelCall

  /** The message being typed: its spec, and what its ring contents do not cover yet. */
  datatype Message = Message(
    spec: Spec, previewPending: bool, suffixPending: bool, cursor: Cursor,
    statusMode: bool, nextSlot: nat, firstSlot: bool, interruptible: bool)

  datatype Pump = Pump(
    ring: seq<Keystroke>, pressPhase: bool, active: bool,
    timer: bool,                  // a fire of the emit timer, or its work item, is due
    msg: Message,
    erasing: bool, erasePending: bool, eraseCount: U16,
    eraseScheduled: bool,         // the delayed erase work is due
    out: seq<Out>, calls: seq<Call>)

  // ---- presentation facts -----------------------------------------------------------------

  function MinLevel(kind: FbKind): nat {
    match kind
    case FbSlotEmpty => LEVEL_BASIC
    case FbChainEmpty => LEVEL_BASIC
    case FbOverflow => LEVEL_ERROR
    case FbSaveFailed => LEVEL_ERROR
    case FbDeleteFailed => LEVEL_ERROR
    case FbSaveQfull => LEVEL_ERROR
    case FbDeleteQfull => LEVEL_ERROR
    case FbChainInsert => LEVEL_VERBOSE
    case _ => LEVEL_COMMAND
  }

  /** Whether a message types at all: the gate the machine's transitions leave open. */
  predicate Types(u: Setup, kind: FbKind) {
    if kind == FbStatusHeader then u.statusDetail >= STATUS_COUNT
    else kind == FbKnob || u.level >= MinLevel(kind)
  }

  function SlotEvents(s: Store, slot: int): seq<Event>
    requires |s.slots| == MAX_SLOTS
  {
    if slot >= 0 then s.View(slot) else []
  }

  ghost function GatherFacts(u: Setup, s: Store, slot: int, firstSlot: bool): Facts
    requires |s.slots| == MAX_SLOTS
  {
    Facts(|FilledSlots(s, 0, MAX_SLOTS)|, NVS_SLOTS, MAX_SLOTS, |SlotEvents(s, slot)|, slot >= 0 && s.IsEmpty(slot),
          u.headerSep, u.slotSep, firstSlot)
  }

  ghost function BuildFor(u: Setup, s: Store, spec: Spec, firstSlot: bool): Built
    requires |s.slots| == MAX_SLOTS
  {
    Build(spec, u.style, u.locale, GatherFacts(u, s, spec.slot, firstSlot))
  }

  ghost function SuffixFor(u: Setup, s: Store, spec: Spec, firstSlot: bool): string
    requires |s.slots| == MAX_SLOTS
  {
    Suffix(spec, u.style, u.locale, GatherFacts(u, s, spec.slot, firstSlot))
  }

  /** What an empty ring takes of a text. */
  function Fill(u: Setup, text: string): seq<Keystroke> {
    Typed(u.locale, if |text| <= RING_KEYS then text else text[..RING_KEYS])
  }

  // ---- typing -----------------------------------------------------------------------------

  /** The spec as typed: the level, not the caller, decides whether SAVED shows a preview. */
  function Resolved(u: Setup, spec: Spec): Spec {
    spec.(showPreview := if spec.kind == FbSaved then u.level >= LEVEL_VERBOSE else spec.showPreview)
  }

  /** The streaming state of a fresh message. */
  function Opened(u: Setup, spec: Spec, preview: bool): Message {
    Message(spec, preview, preview, START,
            spec.kind == FbStatusHeader && u.statusDetail >= STATUS_USED && MAX_SLOTS > 0, 0, true,
            spec.kind == FbStatusHeader || (spec.kind == FbSaved && spec.showPreview))
  }

  ghost function BeginMessage(u: Setup, s: Store, p: Pump, spec0: Spec): Pump
    requires |s.slots| == MAX_SLOTS
  {
    if !Types(u, spec0.kind) then p.(calls := p.calls + [TypingFinishedCall])
    else
      var spec := Resolved(u, spec0);
      var built := BuildFor(u, s, spec, true);
      p.(ring := Fill(u, built.text), pressPhase := true, active := true, timer := true,
         msg := Opened(u, spec, built.previewFollows), erasing := false, eraseCount := 0)
  }

  predicate Listed(u: Setup, s: Store, i: int)
    requires |s.slots| == MAX_SLOTS
  {
    u.statusDetail >= STATUS_FULL || !s.IsEmpty(i)
  }

  /** The first listed slot from `i` on, or the end. */
  function NextListed(u: Setup, s: Store, i: nat): (n: nat)
    requires |s.slots| == MAX_SLOTS
    ensures i <= n && (i <= MAX_SLOTS ==> n <= MAX_SLOTS) && (n < MAX_SLOTS ==> Listed(u, s, n))
    decreases MAX_SLOTS - i
  {
    if i >= MAX_SLOTS || Listed(u, s, i) then i else NextListed(u, s, i + 1)
  }

  function LineSpec(u: Setup, slot: int): Spec {
    Spec(FbStatusSlot, slot, -1, u.statusDetail >= STATUS_USED_PREVIEW, "")
  }

  /** The line of `slot` replaces the finished one. */
  function LineMessage(u: Setup, m: Message, slot: nat, preview: bool): Message {
    Message(LineSpec(u, slot), preview, preview, START, m.statusMode, slot + 1, false, m.interruptible)
  }

  ghost function StatusAdvance(u: Setup, s: Store, p: Pump): Pump
    requires |s.slots| == MAX_SLOTS
  {
    var slot := NextListed(u, s, p.msg.nextSlot);
    if slot >= MAX_SLOTS then p.(msg := p.msg.(nextSlot := slot))
    else
      var built := BuildFor(u, s, LineSpec(u, slot), p.msg.firstSlot);
      p.(ring := Fill(u, built.text), pressPhase := true, timer := true,
         msg := LineMessage(u, p.msg, slot, built.previewFollows))
  }

  function Finish(u: Setup, p: Pump): Pump {
    var erase := u.eraseEnabled && p.eraseCount > 0 && !p.msg.statusMode;
    p.(msg := p.msg.(statusMode := false), active := false, erasePending := p.erasePending || erase,
       eraseScheduled := p.eraseScheduled || erase, calls := p.calls + [TypingFinishedCall])
  }

  function EraseDrained(p: Pump): Pump {
    if p.erasePending && p.eraseCount > 0 then p.(eraseScheduled := true)
    else p.(erasing := false, active := false, calls := p.calls + [EraseFinishedCall])
  }

  ghost function Drained(u: Setup, s: Store, p: Pump): Pump
    requires |s.slots| == MAX_SLOTS
  {
    if p.erasing then EraseDrained(p)
    else if !p.msg.statusMode then Finish(u, p)
    else if NextListed(u, s, p.msg.nextSlot) < MAX_SLOTS then StatusAdvance(u, s, p)
    else Finish(u, StatusAdvance(u, s, p))
  }

  /** An empty ring takes as much of the preview as fits. */
  function Refill(u: Setup, s: Store, p: Pump): Pump
    requires |s.slots| == MAX_SLOTS
  {
    if p.ring != [] || !p.msg.previewPending then p
    else
      var w := Walk(u.locale, SlotEvents(s, p.msg.spec.slot), p.msg.cursor, RING_KEYS);
      p.(ring := Typed(u.locale, w.text), msg := p.msg.(cursor := w.cur, previewPending := !w.done))
  }

  /** Once the preview has drained, what closes it goes into the empty ring. */
  ghost function CloseUp(u: Setup, s: Store, p: Pump): Pump
    requires |s.slots| == MAX_SLOTS
  {
    if p.ring != [] || p.msg.previewPending || !p.msg.suffixPending then p
    else p.(ring := Fill(u, SuffixFor(u, s, p.msg.spec, p.msg.firstSlot)), msg := p.msg.(suffixPending := false))
  }

  function Emit(p: Pump): Pump
    requires p.ring != []
  {
    var sent := p.(out := p.out + [Out(p.ring[0], p.pressPhase)], pressPhase := !p.pressPhase, timer := true);
    if !p.pressPhase then sent.(ring := p.ring[1..])
    else if p.erasing || p.ring[0].keycode == HID_RETURN then sent
    else sent.(eraseCount := (p.eraseCount + 1) % 0x1_0000)
  }

  /** One timer fire. */
  ghost function Fire(u: Setup, s: Store, p0: Pump): Pump
    requires |s.slots| == MAX_SLOTS
  {
    var p := p0.(timer := false);
    if !p.active then p
    else
      var full := CloseUp(u, s, Refill(u, s, p));
      if full.ring == [] then Drained(u, s, full) else Emit(full)
  }

  // ---- erasing ----------------------------------------------------------------------------

  const BACKSPACE := Keystroke(HID_BACKSPACE, NO_MODS)

  function Backspaces(n: nat): (keys: seq<Keystroke>)
    ensures |keys| == n
  {
    seq(n, _ => BACKSPACE)
  }

  /** A message nothing more is typed of. */
  function Dropped(m: Message): Message {
    m.(previewPending := false, suffixPending := false, statusMode := false, interruptible := false)
  }

  /** The delayed erase work runs: one batch of backspaces, re-armed for the remainder. */
  function EraseWork(p0: Pump): Pump {
    var p := p0.(eraseScheduled := false);
    if !p.erasePending || p.eraseCount == 0 then p.(erasePending := false)
    else
      var batch := if p.eraseCount < RING_KEYS then p.eraseCount else RING_KEYS;
      p.(ring := Backspaces(batch), pressPhase := true, active := true, timer := true, msg := Dropped(p.msg),
         erasing := true, erasePending := p.eraseCount > batch, eraseCount := p.eraseCount - batch,
         calls := p.calls + [EraseDueCall])
  }

  function CancelErase(p0: Pump): Pump {
    var p := if p0.erasePending then p0.(eraseScheduled := false, erasePending := false) else p0;
    if !p.erasing then p
    else p.(timer := false, ring := [], erasing := false, active := false, calls := p.calls + [EraseCancelCall])
  }

  /** Only a live status dump or SAVED preview is abortable. */
  function CancelOutput(p: Pump): (Pump, bool) {
    if !p.active || p.erasing || !p.msg.interruptible then (p, false)
    else
      (p.(timer := false, ring := [], msg := Dropped(p.msg), active := false,
          calls := p.calls + [TypingFinishedCall]), true)
  }

  // ---- the direct form ----------------------------------------------------------------------

  /** Presses and releases of a key sequence. */
  function Halves(keys: seq<Keystroke>): (out: seq<Out>)
    ensures |out| == 2 * |keys|
  {
    seq(2 * |keys|, k requires 0 <= k < 2 * |keys| => Out(keys[k / 2], k % 2 == 0))
  }

  /** A message, its preview and its suffix as one text. */
  ghost function MessageText(u: Setup, s: Store, spec: Spec, firstSlot: bool): string
    requires |s.slots| == MAX_SLOTS
  {
    var built := BuildFor(u, s, spec, firstSlot);
    built.text + if built.previewFollows
                 then Rendered(u.locale, SlotEvents(s, spec.slot)) + SuffixFor(u, s, spec, firstSlot)
                 else ""
  }

  /** The status lines of the listed slots from `i` on, in ascending order. */
  ghost function StatusLines(u: Setup, s: Store, i: nat, firstSlot: bool): string
    requires |s.slots| == MAX_SLOTS
    decreases MAX_SLOTS - i
  {
    if i >= MAX_SLOTS then ""
    else if Listed(u, s, i) then MessageText(u, s, LineSpec(u, i), firstSlot) + StatusLines(u, s, i + 1, false)
    else StatusLines(u, s, i + 1, firstSlot)
  }

  /** Everything a message types, written out at once. */
  ghost function Direct(u: Setup, s: Store, spec: Spec): string
    requires |s.slots| == MAX_SLOTS
  {
    MessageText(u, s, Resolved(u, spec), true)
    + if spec.kind == FbStatusHeader && u.statusDetail >= STATUS_USED then StatusLines(u, s, 0, true) else ""
  }
}
