/** dm_feedback_build.c: the fixed text around a preview, for every message, style and layout. */
module Messages {
  import opened Keymaps
  import opened Render
  import opened MachineSpec

  datatype Style = Full | Arrow

  /** One message to type; slots are -1 where the message names none. */
  datatype Spec = Spec(kind: FbKind, slot: int, slot2: int, showPreview: bool, knobText: string)

  /** What the builder is told about the store. */
  datatype Facts = Facts(
    filledCount: nat, nvsSlots: nat, maxSlots: nat, previewEventCount: nat, slotIsEmpty: bool,
    headerSep: string, slotSep: string, firstSlot: bool)

  datatype MsgTable = MsgTable(
    rec: string, stop: string, noRec: string, saved: string, slot: string, del: string, delFail: string,
    saveFail: string, saveFull: string, delFull: string, empty: string, mov: string, movSrc: string,
    movDest: string, movSep: string, movCancel: string, chain: string, previewStart: string,
    previewEnd: string, fbPrefix: string, close: string, tooLarge: string)

  const MSG_ARROW: MsgTable := MsgTable(
    ">*", ">.", "?*", ">", ">", "-", "!-", "!>", "!>%", "!-%", "?", "<>", "<>",
    ">", ">>", "<>x", ">>", ":'", "'", ">FB:", "", "!L")

  const MSG_FULL_PUNCT: MsgTable := MsgTable(
    "[DM REC]", "[DM STOP]", "[DM NO REC]", "[DM SAVED ", "[DM SLOT ", "[DM DEL ", " FAILED]",
    "[DM SAVE FAILED ", "[DM SAVE QUEUE FULL ", "[DM DEL QUEUE FULL ", ": -]", "[DM MOV]", "[DM MOV SRC ",
    "[DM MOV ", "->", "[DM MOV CANCEL]", "[DM +", ": '", "'", "[DM FB:", "]", "[DM TOO LARGE ")

  const MSG_FULL_PLAIN: MsgTable := MsgTable(
    "DM REC", "DM STOP", "DM NO REC", "DM SAVED ", "DM SLOT ", "DM DEL ", "DM DEL FAILED",
    "DM SAVE FAILED ", "DM SAVE QUEUE FULL ", "DM DEL QUEUE FULL ", " EMPTY", "DM MOV", "DM MOV SRC ",
    "DM MOV ", " TO ", "DM MOV CANCEL", "DM PLUS", "", "", "DM FB ", "", "DM TOO LARGE ")

  function Msg(style: Style, l: Locale): MsgTable {
    if style == Arrow then MSG_ARROW else if IsPlain(l) then MSG_FULL_PLAIN else MSG_FULL_PUNCT
  }

  function Number(n: int): string {
    if n == 0 then "0" else if n > 0 then Decimal(n) else ""
  }

  function SlotRef(f: Facts, slot: int): string {
    [if slot < f.nvsSlots then 'N' else 'R'] + Number(slot)
  }

  function SlotEmpty(m: MsgTable, style: Style, f: Facts, slot: int): string {
    if style == Arrow then m.empty + SlotRef(f, slot) else m.slot + SlotRef(f, slot) + m.empty
  }

  function SlotFullSuffix(style: Style, l: Locale): string {
    if style == Arrow then "%" else if IsPlain(l) then " FULL" else " FULL]"
  }

  function DeleteFailedText(m: MsgTable, style: Style, f: Facts, slot: int): string {
    if style == Arrow then m.delFail + SlotRef(f, slot) else m.del + SlotRef(f, slot) + m.delFail
  }

  function StatusLabel(style: Style, l: Locale, f: Facts, slot: int): string {
    if style == Arrow then ">" + SlotRef(f, slot) + ":"
    else SlotRef(f, slot) + if IsPlain(l) then " " else ": "
  }

  function SlotRange(style: Style, l: Locale, f: Facts): string {
    if 0 < f.nvsSlots < f.maxSlots then
      (if style == Arrow then " N0-" + Number(f.nvsSlots - 1) + " R" + Number(f.nvsSlots) + "-"
       else if IsPlain(l) then " NVS 0 TO " + Number(f.nvsSlots - 1) + " RAM " + Number(f.nvsSlots) + " TO "
       else " NVS:0-" + Number(f.nvsSlots - 1) + " RAM:" + Number(f.nvsSlots) + "-")
      + Number(f.maxSlots - 1)
    else if f.nvsSlots == 0 then " RAM"
    else " NVS"
  }

  function StatusHeader(style: Style, l: Locale, f: Facts): string {
    (if style == Arrow then "==" else if IsPlain(l) then "DM " else "[DM ")
    + Number(f.filledCount)
    + (if style != Arrow && IsPlain(l) then " OF " else "/")
    + Number(f.maxSlots)
    + (if f.maxSlots == 0 then " NO SLOTS" else SlotRange(style, l, f))
    + if style != Arrow && !IsPlain(l) then "]" else ""
  }

  /** The text before a preview, and whether a preview follows. */
  datatype Built = Built(text: string, previewFollows: bool)

  function StatusSlot(spec: Spec, style: Style, l: Locale, f: Facts): Built {
    var lead := (if f.firstSlot then f.headerSep else f.slotSep) + StatusLabel(style, l, f, spec.slot);
    if f.slotIsEmpty then Built(lead + "-", false)
    else if spec.showPreview then Built(lead + if style == Arrow || !IsPlain(l) then "'" else "", true)
    else Built(lead + Number(f.previewEventCount), false)
  }

  function Build(spec: Spec, style: Style, l: Locale, f: Facts): Built {
    var m, s := Msg(style, l), spec.slot;
    match spec.kind
    case FbRec => Built(m.rec, false)
    case FbStop => Built(m.stop, false)
    case FbNoRec => Built(m.noRec, false)
    case FbSaved =>
      if spec.showPreview then Built(m.saved + SlotRef(f, s) + m.previewStart, true)
      else Built(m.saved + SlotRef(f, s) + m.close, false)
    case FbSlotFull => Built(m.slot + SlotRef(f, s) + SlotFullSuffix(style, l), false)
    case FbSlotEmpty => Built(SlotEmpty(m, style, f, s), false)
    case FbOverflow => Built(if style == Arrow then "!%" else if IsPlain(l) then "DM FULL" else "[DM FULL]", false)
    case FbMovePrompt => Built(m.mov, false)
    case FbMoveSrc => Built(m.movSrc + SlotRef(f, s) + m.close, false)
    case FbMoved => Built(m.movDest + SlotRef(f, s) + m.movSep + SlotRef(f, spec.slot2) + m.close, false)
    case FbMoveCancel => Built(m.movCancel, false)
    case FbChainInsert => Built("", true)
    case FbChainEmpty => Built(SlotEmpty(m, style, f, s), false)
    case FbChainNoRoom => Built(m.chain + SlotRef(f, s) + SlotFullSuffix(style, l), false)
    case FbDeleted => Built(m.del + SlotRef(f, s) + m.close, false)
    case FbDeleteFailed => Built(DeleteFailedText(m, style, f, s), false)
    case FbTooLarge => Built(m.tooLarge + SlotRef(f, s) + m.close, false)
    case FbSaveFailed => Built(m.saveFail + SlotRef(f, s) + m.close, false)
    case FbSaveQfull => Built(m.saveFull + SlotRef(f, s) + m.close, false)
    case FbDeleteQfull => Built(m.delFull + SlotRef(f, s) + m.close, false)
    case FbKnob => Built(m.fbPrefix + spec.knobText + m.close, false)
    case FbStatusHeader => Built(StatusHeader(style, l, f), false)
    case FbStatusSlot => StatusSlot(spec, style, l, f)
  }

  /** What closes a preview. */
  function Suffix(spec: Spec, style: Style, l: Locale, f: Facts): string {
    if spec.kind == FbStatusSlot then
      if style != Arrow && IsPlain(l) then " " + Number(f.previewEventCount) + " EVENTS"
      else "' (" + Number(f.previewEventCount) + ")"
    else Msg(style, l).previewEnd + Msg(style, l).close
  }

  // ---- everything but a preview fits an empty ring ---------------------------------------------

  /** Facts of a real build, with separators that leave room for the label. */
  predicate Plausible(spec: Spec, f: Facts) {
    && f.filledCount <= 64 && f.maxSlots <= 64 && f.nvsSlots <= 64 && f.previewEventCount <= 65535
    && spec.slot < 64 && spec.slot2 < 64 && |spec.knobText| <= 9
    && |f.headerSep| <= 53 && |f.slotSep| <= 53
  }

  lemma NumberFits(n: int)
    ensures n <= 99 ==> |Number(n)| <= 2
    ensures n <= 65535 ==> |Number(n)| <= 5
  {
    if 0 <= n <= 99 {
      DigitsFit(n, 2, 100);
    }
    if 0 <= n <= 65535 {
      DigitsFit(n, 5, 100000);
    }
  }

  lemma SlotRefFits(f: Facts, slot: int)
    requires slot <= 99
    ensures |SlotRef(f, slot)| <= 3
  {
    NumberFits(slot);
  }

  lemma HeaderFits(style: Style, l: Locale, f: Facts)
    requires f.filledCount <= 64 && f.maxSlots <= 64 && f.nvsSlots <= 64
    ensures |StatusHeader(style, l, f)| <= 63
  {
    hide Number;
    NumberFits(f.filledCount);
    NumberFits(f.maxSlots);
    NumberFits(f.nvsSlots);
    NumberFits(f.nvsSlots - 1);
    NumberFits(f.maxSlots - 1);
  }

  lemma StatusSlotFits(spec: Spec, style: Style, l: Locale, f: Facts)
    requires Plausible(spec, f)
    ensures |StatusSlot(spec, style, l, f).text| <= 63
  {
    hide Number, SlotRef;
    SlotRefFits(f, spec.slot);
    NumberFits(f.previewEventCount);
  }

  lemma SuffixFits(spec: Spec, style: Style, l: Locale, f: Facts)
    requires Plausible(spec, f)
    ensures |Suffix(spec, style, l, f)| <= 63
  {
    hide Number;
    NumberFits(f.previewEventCount);
  }

  /** The fixed part of every message, and what closes its preview, fit the 63 entries of the ring. */
  lemma ScaffoldingFits(spec: Spec, style: Style, l: Locale, f: Facts)
    requires Plausible(spec, f)
    ensures |Build(spec, style, l, f).text| <= 63 && |Suffix(spec, style, l, f)| <= 63
  {
    hide Number, SlotRef, StatusHeader, StatusSlot, Suffix;
    SlotRefFits(f, spec.slot);
    SlotRefFits(f, spec.slot2);
    HeaderFits(style, l, f);
    StatusSlotFits(spec, style, l, f);
    SuffixFits(spec, style, l, f);
  }
}
