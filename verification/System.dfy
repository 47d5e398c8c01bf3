/**
 * The composed firmware: the machine and its store, the storage worker and the completion
 * handler, interleaved one atomic step at a time.
 */
module System {
  import opened Config
  import opened StoreSpec
  import opened StoreLaws
  import opened Storage
  import opened MachineSpec

  datatype World = World(core: Core, flash: Flash, completions: seq<Completion>)

  datatype Step =
    | Press(cmd: Command, slot: int, gate: Gate, knobs: seq<Op>)  // a binding reaches the machine
    | Key(event: Event, gate: Gate)                               // the listener records an event
    | TypingDone(gate: Gate)                                      // the pump drained its cue
    | Expire                                                      // the pending-state timer fires
    | Work(ok: bool)                                              // one storage operation runs
    | Deliver(gate: Gate)                                         // one completion is handled
    | EraseStart                                                  // an erase batch is due
    | EraseEnd                                                    // the erase drained or was aborted
    | PlayEnd                                                     // the emitter ran out of events

  /**
   * When the firmware can take a step. Slot indices are checked by the binding handler, and every
   * binding press cancels a pending erase, so none is due while a macro plays.
   */
  predicate Enabled(w: World, st: Step) {
    match st
    case Press(cmd, i, _, knobs) =>
      cmd != Overflow && (cmd == SlotKey ==> IsSlot(i)) && forall k :: 0 <= k < |knobs| ==> knobs[k].SaveKnobs?
    case Key(_, _) => w.core.m.state == Recording
    case TypingDone(_) => w.core.m.state == TypingFeedback
    case Expire => w.core.armed
    case Work(_) => w.core.queue != []
    case Deliver(_) => w.completions != []
    case EraseStart => w.core.m.state != Playing
    case EraseEnd => true
    case PlayEnd => w.core.m.state == Playing
  }

  /** An operation in the queue saves or deletes slot `i`. */
  predicate Concerns(q: seq<Op>, i: int) {
    q != [] && ((!q[|q| - 1].SaveKnobs? && q[|q| - 1].slot == i) || Concerns(q[..|q| - 1], i))
  }

  /** The slot whose latest request fails when the oldest operation does. */
  function Failed(q: seq<Op>, ok: bool): set<int>
    requires q != []
  {
    if ok || q[0].SaveKnobs? || Concerns(q[1..], q[0].slot) then {} else {q[0].slot}
  }

  /** The slot whose entry no longer is, or will not be, the macro that a failed delete brings back. */
  function Spoiled(q: seq<Op>, ok: bool): set<int>
    requires q != []
  {
    match q[0]
    case Save(i, _, _) => if ok then {} else {i}
    case Delete(i, _) => if ok && !Concerns(q[1..], i) then {i} else {}
    case SaveKnobs(_, _, _) => {}
  }

  function WorkStep(w: World, ok: bool): World
    requires w.core.queue != []
  {
    var b := Storage.Work(Backend(w.core.queue, w.flash, w.completions), ok);
    var lost, unsaved := w.core.lost + Failed(w.core.queue, ok), w.core.unsaved + Spoiled(w.core.queue, ok);
    World(w.core.(queue := b.queue, lost := lost, unsaved := unsaved), b.flash, b.completions)
  }

  /** A failed delete whose macro flash still holds leaves nothing lost. */
  function Healed(c: Core, rc: DmResult, i: int): Core {
    if rc == DeleteFailed && i !in c.unsaved then c.(lost := c.lost - {i}) else c
  }

  function DeliverStep(w: World, gate: Gate): World
    requires w.completions != [] && |w.core.store.slots| == MAX_SLOTS
  {
    var rest := w.completions[1..];
    match w.completions[0]
    case DeleteDone(i, gen, ok) =>
      var (s, rc) := CompleteDelete(w.core.store, i, gen, ok);
      w.(core := DeliverAsync(Healed(w.core.(store := s), rc, i), rc, i, gate), completions := rest)
    case SaveFailedOn(i) =>
      w.(core := DeliverAsync(w.core, SaveFailed, i, gate), completions := rest)
  }

  function Next(w: World, st: Step): World
    requires |w.core.store.slots| == MAX_SLOTS && Enabled(w, st)
  {
    match st
    case Press(cmd, i, gate, knobs) => w.(core := Dispatch(w.core, cmd, i, gate, knobs))
    case Key(e, gate) => w.(core := RecordEvent(w.core, e, gate))
    case TypingDone(gate) => w.(core := TypingFinished(w.core, gate))
    case Expire => w.(core := Timeout(w.core.(armed := false)))
    case Work(ok) => WorkStep(w, ok)
    case Deliver(gate) => DeliverStep(w, gate)
    case EraseStart => w.(core := EraseDue(w.core))
    case EraseEnd => w.(core := EraseRestore(w.core))
    case PlayEnd => w.(core := PlayFinished(w.core, w.core.store.playing))
  }

  // ---- what flash will hold ---------------------------------------------------------

  datatype Entry = Absent | Present(events: seq<Event>)

  function Lookup(f: Flash, i: int): Entry {
    if i in f then Present(f[i]) else Absent
  }

  /** Slot `i`'s flash entry once everything queued has been applied. */
  function Final(f: Flash, q: seq<Op>, i: int): Entry {
    if q == [] then Lookup(f, i)
    else match q[|q| - 1]
      case Save(j, events, _) => if j == i then Present(events) else Final(f, q[..|q| - 1], i)
      case Delete(j, _) => if j == i then Absent else Final(f, q[..|q| - 1], i)
      case SaveKnobs(_, _, _) => Final(f, q[..|q| - 1], i)
  }

  /** What flash should hold for slot `i`: its macro, or nothing when it reads empty. */
  function Expect(s: Store, i: int): Entry
    requires |s.slots| == MAX_SLOTS
  {
    if s.IsEmpty(i) then Absent else Present(s.slots[i].events)
  }

  lemma FinalAppend(f: Flash, q: seq<Op>, op: Op, i: int)
    ensures Final(f, q + [op], i)
      == match op
         case Save(j, events, _) => if j == i then Present(events) else Final(f, q, i)
         case Delete(j, _) => if j == i then Absent else Final(f, q, i)
         case SaveKnobs(_, _, _) => Final(f, q, i)
  {
    assert (q + [op])[..|q|] == q;
  }

  /** Applying the oldest operation early changes nothing, unless it fails and is its slot's latest. */
  lemma {:induction false} FinalApplied(f: Flash, q: seq<Op>, i: int, ok: bool)
    requires q != [] && i !in Failed(q, ok)
    ensures Final(Storage.Work(Backend(q, f, []), ok).flash, q[1..], i) == Final(f, q, i)
  {
    if |q| > 1 {
      var front, last := q[..|q| - 1], q[|q| - 1];
      assert q[1..][..|q| - 2] == front[1..];
      if last.SaveKnobs? || last.slot != i {
        FinalApplied(f, front, i, ok);
      }
    }
  }

  lemma {:induction false} ConcernsAt(q: seq<Op>, i: int, k: nat)
    requires k < |q| && !q[k].SaveKnobs? && q[k].slot == i
    ensures Concerns(q, i)
  {
    if k < |q| - 1 {
      ConcernsAt(q[..|q| - 1], i, k);
    }
  }

  lemma {:induction false} ConcernsSome(q: seq<Op>, i: int)
    requires Concerns(q, i)
    ensures exists k :: 0 <= k < |q| && !q[k].SaveKnobs? && q[k].slot == i
  {
    if q[|q| - 1].SaveKnobs? || q[|q| - 1].slot != i {
      ConcernsSome(q[..|q| - 1], i);
    }
  }

  /** The same if every delete of `i` under stamp `gen` fails. */
  function Held(f: Flash, q: seq<Op>, i: int, gen: nat): Entry {
    if q == [] then Lookup(f, i)
    else match q[|q| - 1]
      case Save(j, events, _) => if j == i then Present(events) else Held(f, q[..|q| - 1], i, gen)
      case Delete(j, g) => if j == i && g != gen then Absent else Held(f, q[..|q| - 1], i, gen)
      case SaveKnobs(_, _, _) => Held(f, q[..|q| - 1], i, gen)
  }

  lemma HeldAppend(f: Flash, q: seq<Op>, op: Op, i: int, gen: nat)
    ensures Held(f, q + [op], i, gen)
      == match op
         case Save(j, events, _) => if j == i then Present(events) else Held(f, q, i, gen)
         case Delete(j, g) => if j == i && g != gen then Absent else Held(f, q, i, gen)
         case SaveKnobs(_, _, _) => Held(f, q, i, gen)
  {
    assert (q + [op])[..|q|] == q;
  }

  /** With no such delete in the queue the two agree. */
  lemma {:induction false} HeldIsFinal(f: Flash, q: seq<Op>, i: int, gen: nat)
    requires forall k :: 0 <= k < |q| && q[k].Delete? && q[k].slot == i ==> q[k].gen != gen
    ensures Held(f, q, i, gen) == Final(f, q, i)
  {
    if q != [] {
      HeldIsFinal(f, q[..|q| - 1], i, gen);
    }
  }

  /** What flash is due to hold survives the oldest operation, unless its slot is spoiled by it. */
  lemma {:induction false} HeldApplied(f: Flash, q: seq<Op>, i: int, gen: nat, ok: bool)
    requires q != [] && Held(f, q, i, gen).Present? && i !in Spoiled(q, ok)
    requires forall k :: 0 < k < |q| && q[0].Delete? && q[0].slot == i && q[0].gen == gen ==>
               q[k].SaveKnobs? || q[k].slot != i
    ensures Held(Storage.Work(Backend(q, f, []), ok).flash, q[1..], i, gen) == Held(f, q, i, gen)
  {
    if |q| > 1 {
      var front, last := q[..|q| - 1], q[|q| - 1];
      assert q[1..][..|q| - 2] == front[1..];
      if !(last.Save? && last.slot == i) {
        FrontSpoils(q, i, ok);
        if i in Spoiled(front, ok) {
          HeadErases(f, front, i, gen);
        }
        HeldApplied(f, front, i, gen, ok);
      }
    }
  }

  /** Only a later operation on the slot keeps the oldest one from spoiling it. */
  lemma FrontSpoils(q: seq<Op>, i: int, ok: bool)
    requires |q| > 1 && i !in Spoiled(q, ok)
    ensures
      i in Spoiled(q[..|q| - 1], ok) ==>
        && q[0].Delete? && q[0].slot == i && !Concerns(q[..|q| - 1][1..], i)
        && !q[|q| - 1].SaveKnobs? && q[|q| - 1].slot == i
  {
    assert q[1..][..|q| - 2] == q[..|q| - 1][1..];
  }

  /** Nothing is held after a delete under another stamp that nothing on the slot follows. */
  lemma {:induction false} HeadErases(f: Flash, q: seq<Op>, i: int, gen: nat)
    requires q != [] && q[0].Delete? && q[0].slot == i && q[0].gen != gen && !Concerns(q[1..], i)
    ensures Held(f, q, i, gen) == Absent
  {
    if |q| > 1 {
      assert q[1..][..|q| - 2] == q[..|q| - 1][1..];
      HeadErases(f, q[..|q| - 1], i, gen);
    }
  }

  // ---- invariants ----------------------------------------------------------------------

  predicate IsTyping(m: Machine) {
    m.state == TypingFeedback || (m.state == TypingErase && m.eraseReturn == TypingFeedback)
  }

  /** The settled state the machine will reach with no further input. */
  function Deep(m: Machine): State {
    if IsTyping(m) then m.returnState else m.Effective()
  }

  predicate Settled(s: State) { s != TypingFeedback && s != TypingErase && s != Playing }

  ghost predicate MachineShape(m: Machine) {
    && Settled(m.returnState)
    && (m.state == TypingErase <==> m.eraseActive)
    && (m.eraseActive ==> m.eraseReturn != TypingErase && m.eraseReturn != Playing)
    && -1 <= m.moveSource && -1 <= m.postSave
    && (m.postSave >= 0 ==> IsTyping(m) && m.returnState == Idle)
  }

  /** What each settled state promises about the store. */
  ghost predicate StoreShape(deep: State, source: int, owed: int, s: Store) {
    && s.Valid() && LeavingHolds(s)
    && (deep == Playing <==> s.playing != -1)
    && (s.playing != -1 ==> !s.IsEmpty(s.playing))
    && (deep == PendingAssign ==> s.draft != [])
    && (source >= 0 ==> deep == MovePending && !s.IsEmpty(source))
    && (owed >= 0 ==> !s.IsEmpty(owed))
  }

  /** Flash, once the queue has drained, holds what every slot shows. */
  ghost predicate Agrees(s: Store, q: seq<Op>, lost: set<int>, owed: int, f: Flash)
    requires |s.slots| == MAX_SLOTS
  {
    forall i :: IsNvs(i) && i !in lost && i != owed ==> Final(f, q, i) == Expect(s, i)
  }

  /** A delete under way that still carries its slot's stamp: the slot is leaving or empty. */
  predicate Waits(s: Store, i: int, gen: nat)
    requires |s.slots| == MAX_SLOTS
  {
    IsNvs(i) && gen == s.slots[i].gen ==> s.slots[i].pending || s.slots[i].events == []
  }

  predicate Spent(s: Store, i: int, gen: nat)
    requires |s.slots| == MAX_SLOTS
  {
    IsNvs(i) ==> gen < s.slots[i].gen
  }

  /**
   * At most one delete under way carries a slot's present stamp, and in the queue nothing that
   * concerns the slot comes after it.
   */
  ghost predicate Lone(s: Store, q: seq<Op>, cs: seq<Completion>)
    requires |s.slots| == MAX_SLOTS
  {
    && (forall k :: 0 <= k < |q| && q[k].Delete? ==> Waits(s, q[k].slot, q[k].gen))
    && (forall k :: 0 <= k < |cs| && cs[k].DeleteDone? ==> Waits(s, cs[k].slot, cs[k].gen))
    && (forall k, l :: 0 <= k < l < |q| && q[k].Delete? && !q[l].SaveKnobs? && q[l].slot == q[k].slot ==>
          Spent(s, q[k].slot, q[k].gen))
    && (forall k, l :: 0 <= k < |q| && 0 <= l < |cs| && q[k].Delete? && cs[l].DeleteDone? && cs[l].slot == q[k].slot ==>
          Spent(s, cs[l].slot, cs[l].gen))
    && (forall k, l :: 0 <= k < l < |cs| && cs[k].DeleteDone? && cs[l].DeleteDone? && cs[l].slot == cs[k].slot ==>
          Spent(s, cs[k].slot, cs[k].gen))
  }

  /** Every save queued holds a macro that fits flash. */
  predicate SavesFit(q: seq<Op>) {
    forall k :: 0 <= k < |q| && q[k].Save? ==> 0 < |q[k].events| <= MAX_EVENTS_NVS
  }

  /** Queued saves fit flash, and no delete under way carries a stamp its slot has not handed out yet. */
  ghost predicate Stamped(s: Store, q: seq<Op>, lost: set<int>, owed: int, cs: seq<Completion>)
    requires |s.slots| == MAX_SLOTS
  {
    && |q| <= QUEUE_LEN
    && (forall k :: 0 <= k < |q| && !q[k].SaveKnobs? ==> IsNvs(q[k].slot))
    && SavesFit(q)
    && (forall k :: 0 <= k < |q| && q[k].Delete? ==> Older(s, owed, q[k].slot, q[k].gen))
    && (forall k :: 0 <= k < |cs| && cs[k].DeleteDone? ==> IsNvs(cs[k].slot) && Older(s, owed, cs[k].slot, cs[k].gen))
    && (forall k :: 0 <= k < |cs| && cs[k].DeleteDone? && !cs[k].ok && cs[k].gen == s.slots[cs[k].slot].gen ==>
          cs[k].slot in lost)
    && Lone(s, q, cs)
  }

  predicate Older(s: Store, owed: int, i: int, gen: nat)
    requires |s.slots| == MAX_SLOTS && IsNvs(i)
  {
    gen <= s.slots[i].gen && (i == owed ==> gen < s.slots[i].gen)
  }

  /** The macro that a failed delete of a leaving slot would bring back is what flash will hold. */
  ghost predicate Recoverable(s: Store, q: seq<Op>, unsaved: set<int>, f: Flash)
    requires |s.slots| == MAX_SLOTS
  {
    forall i :: IsNvs(i) && s.slots[i].pending && i !in unsaved ==>
      Held(f, q, i, s.slots[i].gen) == Present(s.slots[i].events)
  }

  ghost predicate Body(deep: State, source: int, owed: int, c: Core, f: Flash, cs: seq<Completion>) {
    && StoreShape(deep, source, owed, c.store)
    && Agrees(c.store, c.queue, c.lost, owed, f)
    && Recoverable(c.store, c.queue, c.unsaved, f)
    && Stamped(c.store, c.queue, c.lost, owed, cs)
  }

  ghost predicate Inv(w: World) {
    && MachineShape(w.core.m)
    && Body(Deep(w.core.m), w.core.m.moveSource, w.core.m.postSave, w.core, w.flash, w.completions)
  }
}
