/** What the typed messages say: true counts, and the slots they are about. */
module Words {
  import opened Config
  import opened StoreSpec
  import opened Keymaps
  import opened Render
  import opened MachineSpec
  import opened Messages
  import opened PumpSpec
  import Previews
  import Shown

  // ---- numbers and slots ------------------------------------------------------------------------------

  /** A printed number reads back as itself. */
  lemma NumberIsValue(n: nat)
    ensures Shown.Value(Number(n)) == n
    ensures forall k :: 0 <= k < |Number(n)| ==> '0' <= Number(n)[k] <= '9'
  {
    Shown.DecimalIsValue(n);
  }

  /** A slot's name says its class and its number, and no two slots of a build share one. */
  lemma SlotRefTellsApart(f: Facts, i: nat, j: nat)
    ensures SlotRef(f, i) == SlotRef(f, j) ==> i == j
    ensures SlotRef(f, i)[0] == 'N' <==> i < f.nvsSlots
    ensures Shown.Value(SlotRef(f, i)[1..]) == i
  {
    hide Number;
    NumberIsValue(i);
    NumberIsValue(j);
    assert SlotRef(f, i)[1..] == Number(i) && SlotRef(f, j)[1..] == Number(j);
  }

  // ---- what the builder is told ---------------------------------------------------------------------

  /** The slots that show a macro. */
  ghost function Filled(s: Store): set<int>
    requires |s.slots| == MAX_SLOTS
  {
    set i | 0 <= i < MAX_SLOTS && s.View(i) != []
  }

  /** The builder is told the truth about the store. */
  lemma FactsAreTrue(u: Setup, s: Store, slot: int, firstSlot: bool)
    requires |s.slots| == MAX_SLOTS
    ensures
      var f := GatherFacts(u, s, slot, firstSlot);
      && f.filledCount == |Filled(s)| && f.maxSlots == MAX_SLOTS && f.nvsSlots == NVS_SLOTS
      && (slot >= 0 ==> f.previewEventCount == |s.View(slot)| && (f.slotIsEmpty <==> s.View(slot) == []))
  {
    assert Filled(s) == FilledSlots(s, 0, MAX_SLOTS);
  }

  /** How a status header opens, given a count. */
  function HeaderOpening(style: Style, l: Locale, filled: nat, slots: nat): string {
    (if style == Arrow then "==" else if IsPlain(l) then "DM " else "[DM ") + Number(filled)
    + (if style != Arrow && IsPlain(l) then " OF " else "/") + Number(slots)
  }

  /** A status header opens with how many slots are filled, of how many. */
  lemma HeaderCounts(u: Setup, s: Store)
    requires |s.slots| == MAX_SLOTS
    ensures
      HeaderOpening(u.style, u.locale, |Filled(s)|, MAX_SLOTS)
      <= BuildFor(u, s, Spec(FbStatusHeader, -1, -1, false, ""), true).text
  {
    hide Number, SlotRange, GatherFacts, HeaderOpening, StatusHeader;
    FactsAreTrue(u, s, -1, true);
    HeaderOpens(u.style, u.locale, GatherFacts(u, s, -1, true));
  }

  lemma HeaderOpens(style: Style, l: Locale, f: Facts)
    ensures HeaderOpening(style, l, f.filledCount, f.maxSlots) <= StatusHeader(style, l, f)
  {
    hide Number, SlotRange;
  }

  lemma Joined(a: string, b: string, c: string)
    ensures a + b + c == a + (b + c)
  {
  }

  /**
   * A status line opens with its separator, the header's before the first line and the slots' before the
   * others, then the slot's label, which names it.
   */
  lemma LineOpens(u: Setup, s: Store, i: nat, first: bool)
    requires |s.slots| == MAX_SLOTS
    ensures
      var sep := if first then u.headerSep else u.slotSep;
      var mark := if u.style == Arrow then ">" else "";
      sep + mark + SlotRef(GatherFacts(u, s, i, first), i) <= BuildFor(u, s, LineSpec(u, i), first).text
  {
    hide SlotRef, Number;
  }

  // ---- messages name their slots ------------------------------------------------------------------------

  ghost predicate Contains(text: string, part: string) {
    exists a, b :: text == a + part + b
  }

  lemma Inside(a: string, part: string, b: string)
    ensures Contains(a + part + b, part) && Contains(a + part, part)
  {
    assert a + part == a + part + "";
  }

  /** A line without a preview ends in the number of events its slot shows; the close of one names it. */
  lemma LineCounts(u: Setup, s: Store, i: nat, first: bool)
    requires |s.slots| == MAX_SLOTS && s.View(i) != []
    ensures
      var built := BuildFor(u, s, LineSpec(u, i), first);
      !built.previewFollows ==> Contains(built.text, Number(|s.View(i)|))
    ensures Contains(SuffixFor(u, s, LineSpec(u, i), first), Number(|s.View(i)|))
  {
    hide Contains, Number, StatusLabel, GatherFacts;
    FactsAreTrue(u, s, i, first);
    var f, n := GatherFacts(u, s, i, first), Number(|s.View(i)|);
    var lead := (if f.firstSlot then f.headerSep else f.slotSep) + StatusLabel(u.style, u.locale, f, i);
    Inside(lead, n, "");
    Inside(" ", n, " EVENTS");
    Inside("' (", n, ")");
  }

  /** The count a query shows. */
  predicate SaysCount(text: string, digits: string, count: nat) {
    text == "(" + digits + " events)" && Shown.Value(digits) == count
  }

  /** Where no typing is compiled in the query says how many events there are, as far as the buffer goes. */
  lemma QueryCounts(l: Locale, events: seq<Event>, count: nat, len: nat)
    requires len > 0
    ensures exists whole, digits ::
      && SaysCount(whole, digits, count)
      && Previews.QueryText(l, events, count, false, len) == if |whole| < len then whole else whole[..len - 1]
  {
    Shown.DecimalIsValue(count);
    var digits := if count == 0 then "0" else Decimal(count);
    assert SaysCount("(" + digits + " events)", digits, count);
  }

  /** Messages about one slot. */
  predicate NamesOne(kind: FbKind) {
    kind in {FbSaved, FbSlotFull, FbSlotEmpty, FbMoveSrc, FbMoved, FbChainEmpty, FbChainNoRoom, FbDeleted,
             FbDeleteFailed, FbTooLarge, FbSaveFailed, FbSaveQfull, FbDeleteQfull}
  }

  /** A message about a slot names it, in every style and layout, and MOVED the other one too. */
  lemma MessageNamesSlot(spec: Spec, style: Style, l: Locale, f: Facts)
    requires NamesOne(spec.kind)
    ensures Contains(Build(spec, style, l, f).text, SlotRef(f, spec.slot))
    ensures spec.kind == FbMoved ==>
      exists a, b, c :: Build(spec, style, l, f).text == a + SlotRef(f, spec.slot) + b + SlotRef(f, spec.slot2) + c
  {
    hide SlotRef, Contains, SlotFullSuffix;
    var m, ref := Msg(style, l), SlotRef(f, spec.slot);
    match spec.kind {
      case FbSaved =>
        Inside(m.saved, ref, m.previewStart);
        Inside(m.saved, ref, m.close);
      case FbMoved =>
        Joined(m.movDest + ref + m.movSep, SlotRef(f, spec.slot2), m.close);
        Joined(m.movDest + ref, m.movSep, SlotRef(f, spec.slot2) + m.close);
        Inside(m.movDest, ref, m.movSep + (SlotRef(f, spec.slot2) + m.close));
      case FbDeleteFailed =>
        Inside(m.delFail, ref, "");
        Inside(m.del, ref, m.delFail);
      case FbSlotEmpty => EmptyNames(m, style, f, spec.slot);
      case FbChainEmpty => EmptyNames(m, style, f, spec.slot);
      case FbSlotFull => Inside(m.slot, ref, SlotFullSuffix(style, l));
      case FbChainNoRoom => Inside(m.chain, ref, SlotFullSuffix(style, l));
      case FbMoveSrc => Inside(m.movSrc, ref, m.close);
      case FbDeleted => Inside(m.del, ref, m.close);
      case FbTooLarge => Inside(m.tooLarge, ref, m.close);
      case FbSaveFailed => Inside(m.saveFail, ref, m.close);
      case FbSaveQfull => Inside(m.saveFull, ref, m.close);
      case FbDeleteQfull => Inside(m.delFull, ref, m.close);
    }
  }

  lemma EmptyNames(m: MsgTable, style: Style, f: Facts, slot: int)
    ensures Contains(SlotEmpty(m, style, f, slot), SlotRef(f, slot))
  {
    hide SlotRef, Contains;
    Inside(m.empty, SlotRef(f, slot), "");
    Inside(m.slot, SlotRef(f, slot), m.empty);
  }
}
