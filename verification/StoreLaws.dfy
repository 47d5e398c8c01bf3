/**
 * What every run of store operations keeps: the store is a map from slot to macro, space is
 * never lost, and a delete completion only ever frees what that delete named.
 */
module StoreLaws {
  import opened Config
  import opened StoreSpec

  /** Every live operation of the store, delete completions included (boot restore excluded). */
  datatype StoreOp =
    | MoveOp(src: int, dst: int)
    | PersistOp(slot: int)
    | DeleteOp(slot: int)
    | CompleteOp(slot: int, gen: nat, ok: bool)
    | ResetDraftOp
    | AppendOp(event: Event)
    | ChainOp(slot: int)
    | CommitOp(slot: int)
    | PlayOp(slot: int)
    | StopOp

  function Step(s: Store, q: seq<Op>, op: StoreOp): Outcome
    requires |s.slots| == MAX_SLOTS
  {
    match op
    case MoveOp(src, dst) => Move(s, q, src, dst)
    case PersistOp(i) => Persist(s, q, i)
    case DeleteOp(i) => DeleteSlot(s, q, i)
    case CompleteOp(i, gen, ok) => var (s', rc) := CompleteDelete(s, i, gen, ok); Outcome(s', q, rc)
    case ResetDraftOp => Outcome(DraftReset(s), q, Ok)
    case AppendOp(e) => var (s', ok) := DraftAppend(s, e); Outcome(s', q, if ok then Ok else RejectedFull)
    case ChainOp(i) => var (s', rc) := DraftChain(s, i); Outcome(s', q, rc)
    case CommitOp(i) => var (s', rc) := DraftCommit(s, i); Outcome(s', q, rc)
    case PlayOp(i) => Outcome(MarkPlaying(s, i), q, Ok)
    case StopOp => Outcome(ClearPlaying(s), q, Ok)
  }

  // ---- the reference: a map of macros and a map of macros on their way out ------

  /** `leaving` holds macros whose delete is requested: invisible, but still taking space. */
  datatype Reference = Reference(macros: map<int, seq<Event>>, leaving: map<int, seq<Event>>, draft: seq<Event>)

  function Abstract(s: Store): Reference
    requires |s.slots| == MAX_SLOTS
  {
    Reference(
      map i | 0 <= i < MAX_SLOTS && !s.IsEmpty(i) :: s.slots[i].events,
      map i | 0 <= i < MAX_SLOTS && s.slots[i].events != [] && s.slots[i].pending :: s.slots[i].events,
      s.draft)
  }

  /** What one operation with outcome `rc` does to the two maps; nothing here knows of offsets. */
  ghost predicate RefStep(r: Reference, op: StoreOp, rc: DmResult, r': Reference) {
    match op
    case MoveOp(src, dst) =>
      if rc == Ok || rc == DeleteQueueFull then
        && src in r.macros && dst !in r.macros
        && r' == r.(macros := r.macros[dst := r.macros[src]] - {src}, leaving := r.leaving - {dst})
      else if rc == SaveQueueFull then r' == r.(leaving := r.leaving - {dst})
      else r' == r
    case DeleteOp(i) =>
      if rc == DeleteDeferred then
        i in r.macros && r' == r.(macros := r.macros - {i}, leaving := r.leaving[i := r.macros[i]])
      else if rc == Ok then i in r.macros && r' == r.(macros := r.macros - {i})
      else r' == r
    case CompleteOp(i, _, _) =>
      if rc == Ok then r' == r.(leaving := r.leaving - {i})
      else if rc == DeleteFailed && i in r.leaving then
        r' == r.(macros := r.macros[i := r.leaving[i]], leaving := r.leaving - {i})
      else r' == r
    case ResetDraftOp => r' == r.(draft := [])
    case AppendOp(e) => r' == if rc == Ok then r.(draft := r.draft + [e]) else r
    case ChainOp(i) => if rc == Ok then i in r.macros && r' == r.(draft := r.draft + r.macros[i]) else r' == r
    case CommitOp(i) =>
      if rc == Ok then
        && i !in r.macros
        && r' == r.(macros := if r.draft == [] then r.macros else r.macros[i := r.draft], leaving := r.leaving - {i})
      else r' == r
    case _ => r' == r
  }

  /** No slot that plays has a delete pending. */
  ghost predicate PlayingKept(s: Store)
    requires |s.slots| == MAX_SLOTS
  {
    IsSlot(s.playing) ==> !s.slots[s.playing].pending
  }

  /** Requests the command machine never makes: deleting the slot that plays, playing a leaving slot. */
  predicate Reckless(s: Store, q: seq<Op>, op: StoreOp)
    requires |s.slots| == MAX_SLOTS
  {
    match op
    case DeleteOp(i) => i == s.playing && DeleteSlot(s, q, i).result == DeleteDeferred
    case PlayOp(i) => IsSlot(i) && s.slots[i].pending
    case _ => false
  }

  /** Exactly those requests lose the guarantee about the playing slot. */
  lemma PlayingKeptUnlessReckless(s: Store, q: seq<Op>, op: StoreOp)
    requires |s.slots| == MAX_SLOTS && PlayingKept(s)
    ensures |Step(s, q, op).store.slots| == MAX_SLOTS
    ensures PlayingKept(Step(s, q, op).store) <==> !Reckless(s, q, op)
  {
    hide Total;
  }

  /** The effect of one slot update on the two maps. */
  function Put(r: Reference, i: int, slot: Slot): Reference {
    r.(macros := if slot.events != [] && !slot.pending then r.macros[i := slot.events] else r.macros - {i},
       leaving := if slot.events != [] && slot.pending then r.leaving[i := slot.events] else r.leaving - {i})
  }

  lemma AbstractWith(s: Store, i: int, slot: Slot)
    requires |s.slots| == MAX_SLOTS && IsSlot(i)
    ensures Abstract(s.With(i, slot)) == Put(Abstract(s), i, slot)
  {
    hide Total;
    var r, r' := Put(Abstract(s), i, slot), Abstract(s.With(i, slot));
    assert r'.macros == r.macros;
    assert r'.leaving == r.leaving;
  }

  lemma WithKeepsValid(s: Store, i: int, slot: Slot)
    requires s.Valid() && IsSlot(i)
    requires IsNvs(i) ==> |slot.events| <= MAX_EVENTS_NVS
    requires Total(s.slots) - |s.slots[i].events| + |slot.events| <= ARENA_EVENTS
    ensures s.With(i, slot).Valid()
  {
    TotalUpdate(s.slots, i, slot);
  }

  lemma RelocatedKeepsValid(s: Store, src: int, dst: int)
    requires s.Valid() && src != dst && !s.IsEmpty(src) && IsSlot(dst) && s.IsEmpty(dst)
    requires IsNvs(dst) ==> |s.slots[src].events| <= MAX_EVENTS_NVS
    ensures Relocated(s, src, dst).Valid()
  {
    var taken := Slot(s.slots[src].events, false, s.slots[dst].gen + 1);
    TotalUpdate(s.slots, dst, taken);
    TotalUpdate(s.slots[dst := taken], src, Slot([], false, s.slots[src].gen + 1));
  }

  lemma PutTwice(r: Reference, src: int, dst: int, taken: Slot, freed: Slot)
    requires taken.events != [] && !taken.pending && freed.events == []
    ensures Put(Put(r, dst, taken), src, freed)
         == r.(macros := r.macros[dst := taken.events] - {src}, leaving := r.leaving - {dst, src})
  {
    assert r.leaving - {dst} - {src} == r.leaving - {dst, src};
  }

  lemma AbstractTwice(s: Store, src: int, dst: int, taken: Slot, freed: Slot)
    requires |s.slots| == MAX_SLOTS && IsSlot(src) && IsSlot(dst)
    ensures Abstract(s.With(dst, taken).With(src, freed)) == Put(Put(Abstract(s), dst, taken), src, freed)
  {
    AbstractWith(s, dst, taken);
    AbstractWith(s.With(dst, taken), src, freed);
  }

  lemma RelocatedAbstract(s: Store, src: int, dst: int)
    requires |s.slots| == MAX_SLOTS && IsSlot(src) && IsSlot(dst)
    requires s.slots[src].events != []
    ensures
      var r := Abstract(s);
      Abstract(Relocated(s, src, dst))
      == r.(macros := r.macros[dst := s.slots[src].events] - {src}, leaving := r.leaving - {dst, src})
  {
    hide Total, Abstract, Put;
    var taken, freed := Slot(s.slots[src].events, false, s.slots[dst].gen + 1), Slot([], false, s.slots[src].gen + 1);
    PutTwice(Abstract(s), src, dst, taken, freed);
    AbstractTwice(s, src, dst, taken, freed);
  }

  lemma RolledBackAbstract(s: Store, dst: int)
    requires |s.slots| == MAX_SLOTS && IsSlot(dst) && s.IsEmpty(dst)
    ensures var r := Abstract(s); Abstract(RolledBack(s, dst)) == r.(leaving := r.leaving - {dst})
  {
    AbstractWith(s, dst, Slot([], false, s.slots[dst].gen + 2));
    assert Abstract(s).macros - {dst} == Abstract(s).macros;
  }

  lemma MoveKeepsValid(s: Store, q: seq<Op>, src: int, dst: int)
    requires s.Valid()
    ensures Move(s, q, src, dst).store.Valid()
  {
    if !s.IsEmpty(src) && IsSlot(dst) && s.IsEmpty(dst) {
      WithKeepsValid(s, dst, Slot([], false, s.slots[dst].gen + 2));
      if !(IsNvs(dst) && |s.slots[src].events| > MAX_EVENTS_NVS) {
        RelocatedKeepsValid(s, src, dst);
      }
    }
  }

  /** The three ways a move can end. */
  lemma MoveOutcomes(s: Store, q: seq<Op>, src: int, dst: int)
    requires |s.slots| == MAX_SLOTS
    ensures
      var o := Move(s, q, src, dst);
      if o.result == Ok || o.result == DeleteQueueFull then
        !s.IsEmpty(src) && IsSlot(dst) && s.IsEmpty(dst) && o.store == Relocated(s, src, dst)
      else if o.result == SaveQueueFull then
        !s.IsEmpty(src) && IsSlot(dst) && s.IsEmpty(dst) && o.store == RolledBack(s, dst)
      else o.store == s
  {
  }

  lemma MoveRefines(s: Store, q: seq<Op>, src: int, dst: int)
    requires s.Valid()
    ensures var o := Move(s, q, src, dst);
      RefStep(Abstract(s), MoveOp(src, dst), o.result, Abstract(o.store))
  {
    hide Move, Relocated, RolledBack, Total;
    MoveOutcomes(s, q, src, dst);
    if !s.IsEmpty(src) && IsSlot(dst) && s.IsEmpty(dst) {
      RelocatedAbstract(s, src, dst);
      RolledBackAbstract(s, dst);
    }
  }

  lemma DeleteRefines(s: Store, q: seq<Op>, i: int)
    requires s.Valid()
    ensures var o := DeleteSlot(s, q, i);
      o.store.Valid() && RefStep(Abstract(s), DeleteOp(i), o.result, Abstract(o.store))
  {
    hide Total;
    if !s.IsEmpty(i) {
      WithKeepsValid(s, i, s.slots[i].(pending := true));
      WithKeepsValid(s, i, s.slots[i].(events := []));
      AbstractWith(s, i, s.slots[i].(pending := true));
      AbstractWith(s, i, s.slots[i].(events := []));
    }
  }

  lemma CompleteKeepsValid(s: Store, i: int, gen: nat, ok: bool)
    requires s.Valid()
    ensures CompleteDelete(s, i, gen, ok).0.Valid()
  {
    if IsSlot(i) {
      WithKeepsValid(s, i, s.slots[i].(pending := false));
      WithKeepsValid(s, i, Slot([], false, gen));
    }
  }

  lemma CompleteRefines(s: Store, i: int, gen: nat, ok: bool)
    requires s.Valid() && PlayingKept(s)
    ensures var (s', rc) := CompleteDelete(s, i, gen, ok);
      s'.Valid() && RefStep(Abstract(s), CompleteOp(i, gen, ok), rc, Abstract(s'))
  {
    CompleteKeepsValid(s, i, gen, ok);
    if IsSlot(i) && s.slots[i].pending {
      AbstractWith(s, i, s.slots[i].(pending := false));
      AbstractWith(s, i, Slot([], false, gen));
    }
  }

  lemma CommitRefines(s: Store, i: int)
    requires s.Valid()
    ensures var (s', rc) := DraftCommit(s, i);
      s'.Valid() && RefStep(Abstract(s), CommitOp(i), rc, Abstract(s'))
  {
    hide Total;
    if DraftCommit(s, i).1 == Ok {
      WithKeepsValid(s, i, Slot(s.draft, false, s.slots[i].gen + 1));
      AbstractWith(s, i, Slot(s.draft, false, s.slots[i].gen + 1));
    }
  }

  /** Every operation does to the maps exactly what the reference says for its outcome, and no more. */
  lemma StepRefinesMap(s: Store, q: seq<Op>, op: StoreOp)
    requires s.Valid() && (op.CompleteOp? ==> PlayingKept(s))
    ensures var o := Step(s, q, op);
      o.store.Valid() && RefStep(Abstract(s), op, o.result, Abstract(o.store))
  {
    StepKeepsValid(s, q, op);
    match op {
      case MoveOp(src, dst) => MoveRefines(s, q, src, dst);
      case DeleteOp(i) => DeleteRefines(s, q, i);
      case CompleteOp(i, gen, ok) => CompleteRefines(s, i, gen, ok);
      case CommitOp(i) => CommitRefines(s, i);
      case _ =>
    }
  }

  /** The outcome of an operation, decided from the maps and the queue's length alone. */
  function Verdict(r: Reference, queued: nat, playing: int, op: StoreOp): DmResult {
    match op
    case MoveOp(src, dst) =>
      if src !in r.macros || !IsSlot(dst) then RejectedEmpty
      else if dst in r.macros then RejectedOccupied
      else if IsNvs(dst) && |r.macros[src]| > MAX_EVENTS_NVS then RejectedTooLarge
      else if IsNvs(dst) && queued >= QUEUE_LEN then SaveQueueFull
      else if IsNvs(src) && queued + (if IsNvs(dst) then 1 else 0) >= QUEUE_LEN then DeleteQueueFull
      else Ok
    case PersistOp(i) =>
      if !IsSlot(i) then RejectedEmpty else if IsNvs(i) && queued >= QUEUE_LEN then SaveQueueFull else Ok
    case DeleteOp(i) =>
      if i !in r.macros then RejectedEmpty
      else if !IsNvs(i) then Ok
      else if queued >= QUEUE_LEN then DeleteQueueFull
      else DeleteDeferred
    case AppendOp(_) => if |r.draft| < MAX_EVENTS then Ok else RejectedFull
    case ChainOp(i) =>
      if i !in r.macros then RejectedEmpty
      else if |r.draft| + |r.macros[i]| > MAX_EVENTS then RejectedFull
      else Ok
    case CommitOp(i) =>
      if !IsSlot(i) || i in r.macros then RejectedOccupied
      else if IsNvs(i) && |r.draft| > MAX_EVENTS_NVS then RejectedTooLarge
      else if playing != -1 || |r.draft| + Weight(r.macros, MAX_SLOTS) + Weight(r.leaving, MAX_SLOTS) > ARENA_EVENTS
      then RejectedFull
      else Ok
    case _ => Ok
  }

  /** Nothing but the maps and the queue decides an outcome; a save in particular is never too large. */
  lemma OutcomeIsAbstract(s: Store, q: seq<Op>, op: StoreOp)
    requires s.Valid() && !op.CompleteOp?
    ensures Step(s, q, op).result == Verdict(Abstract(s), |q|, s.playing, op)
  {
    hide Total;
    if op.CommitOp? {
      assert s.slots[..MAX_SLOTS] == s.slots;
      TotalIsWeight(s, MAX_SLOTS);
    }
  }

  // ---- no space is lost ----------------------------------------------------------

  /** Events held by the first `n` slots of a map of macros. */
  function Weight(m: map<int, seq<Event>>, n: nat): nat {
    if n == 0 then 0 else Weight(m, n - 1) + if n - 1 in m then |m[n - 1]| else 0
  }

  lemma {:induction false} TotalIsWeight(s: Store, n: nat)
    requires |s.slots| == MAX_SLOTS && n <= MAX_SLOTS
    ensures Total(s.slots[..n]) == Weight(Abstract(s).macros, n) + Weight(Abstract(s).leaving, n)
  {
    if n > 0 {
      assert s.slots[..n][..n - 1] == s.slots[..n - 1];
      TotalIsWeight(s, n - 1);
    }
  }

  /**
   * Restoring a macro: it goes in exactly when it is within the class cap, nothing plays, and it fits the
   * pool beside the other slots; then the slot shows it under its old stamp. A refused one has still
   * dropped the old occupant, unless the refusal was for size or slot. Either way nothing else changes.
   */
  lemma LoadRefines(s: Store, i: int, events: seq<Event>)
    requires s.Valid()
    ensures
      var (s', ok) := Load(s, i, events);
      var tried := IsSlot(i) && |events| <= MAX_EVENTS_NVS;
      && s'.Valid() && s'.draft == s.draft && s'.playing == s.playing
      && (ok <==> tried && s.playing == -1 && |events| + Total(s.slots) - |s.slots[i].events| <= ARENA_EVENTS)
      && (ok ==> s'.slots[i] == Slot(events, false, s.slots[i].gen))
      && (tried && !ok ==> s'.slots[i] == s.slots[i].(events := []))
      && (!tried ==> s' == s)
      && forall j :: 0 <= j < MAX_SLOTS && j != i ==> s'.slots[j] == s.slots[j]
  {
    hide Total;
    if IsSlot(i) {
      TotalUpdate(s.slots, i, s.slots[i].(events := []));
      TotalUpdate(s.slots, i, Slot(events, false, s.slots[i].gen));
    }
  }

  /**
   * Whatever commits, moves and deletes came before, a commit within its class cap succeeds
   * exactly when the draft fits next to everything stored; a refused one changes nothing.
   */
  lemma CommitSucceedsIffItFits(s: Store, dst: int)
    requires s.Valid() && IsSlot(dst)
    ensures var r := Abstract(s);
      DraftCommit(s, dst).1 == Ok <==>
        && dst !in r.macros
        && s.playing == -1
        && |r.draft| + Weight(r.macros, MAX_SLOTS) + Weight(r.leaving, MAX_SLOTS) <= ARENA_EVENTS
        && (IsNvs(dst) ==> |r.draft| <= MAX_EVENTS_NVS)
    ensures DraftCommit(s, dst).1 != Ok ==> DraftCommit(s, dst).0 == s
  {
    assert s.slots[..MAX_SLOTS] == s.slots;
    TotalIsWeight(s, MAX_SLOTS);
  }

  // ---- delete completions own what they delete ---------------------------------------

  function Run(s: Store, q: seq<Op>, ops: seq<StoreOp>): Store
    requires |s.slots| == MAX_SLOTS
    decreases |ops|
  {
    if ops == [] then s
    else
      var o := Step(s, q, ops[0]);
      StepKeepsSlotCount(s, q, ops[0]);
      Run(o.store, o.queue, ops[1..])
  }

  lemma StepKeepsSlotCount(s: Store, q: seq<Op>, op: StoreOp)
    requires |s.slots| == MAX_SLOTS
    ensures |Step(s, q, op).store.slots| == MAX_SLOTS
  {
  }

  /** Operations that put other content into slot `i`, or take its content away to another slot. */
  predicate Supersedes(op: StoreOp, rc: DmResult, i: int) {
    match op
    case CommitOp(dst) => dst == i && rc == Ok
    case MoveOp(src, dst) =>
      || (dst == i && (rc == Ok || rc == DeleteQueueFull || rc == SaveQueueFull))
      || (src == i && (rc == Ok || rc == DeleteQueueFull))
    case _ => false
  }

  ghost predicate Superseded(s: Store, q: seq<Op>, ops: seq<StoreOp>, i: int)
    requires |s.slots| == MAX_SLOTS
    decreases |ops|
  {
    ops != [] &&
    var o := Step(s, q, ops[0]);
    StepKeepsSlotCount(s, q, ops[0]);
    Supersedes(ops[0], o.result, i) || Superseded(o.store, o.queue, ops[1..], i)
  }

  /** No request of `ops` is reckless when its turn comes. */
  ghost predicate Careful(s: Store, q: seq<Op>, ops: seq<StoreOp>)
    requires |s.slots| == MAX_SLOTS
    decreases |ops|
  {
    ops == [] ||
    var o := Step(s, q, ops[0]);
    StepKeepsSlotCount(s, q, ops[0]);
    !Reckless(s, q, ops[0]) && Careful(o.store, o.queue, ops[1..])
  }

  /** The reference follows a run of the store operation by operation. */
  ghost predicate Tracks(s: Store, q: seq<Op>, ops: seq<StoreOp>)
    requires |s.slots| == MAX_SLOTS
    decreases |ops|
  {
    ops == [] ||
    var o := Step(s, q, ops[0]);
    StepKeepsSlotCount(s, q, ops[0]);
    RefStep(Abstract(s), ops[0], o.result, Abstract(o.store)) && Tracks(o.store, o.queue, ops[1..])
  }

  /** Over whole runs the store is the map of macros it refines. */
  lemma {:induction false} RunRefinesMap(s: Store, q: seq<Op>, ops: seq<StoreOp>)
    requires s.Valid() && PlayingKept(s) && Careful(s, q, ops)
    ensures Tracks(s, q, ops) && Run(s, q, ops).Valid()
    decreases |ops|
  {
    hide RefStep, Step, Reckless, PlayingKept, Total;
    if ops != [] {
      StepRefinesMap(s, q, ops[0]);
      PlayingKeptUnlessReckless(s, q, ops[0]);
      RunRefinesMap(Step(s, q, ops[0]).store, Step(s, q, ops[0]).queue, ops[1..]);
    }
  }

  /** A delete is only ever pending on a slot that still holds something. */
  ghost predicate LeavingHolds(s: Store) {
    forall i :: 0 <= i < |s.slots| && s.slots[i].pending ==> s.slots[i].events != []
  }

  /** Under one stamp a slot's content can only disappear, and what disappeared is not pending. */
  ghost predicate Follows(a: Slot, b: Slot) {
    && a.gen <= b.gen
    && (a.gen == b.gen ==> b.events == a.events || b.events == [])
  }

  lemma StepFollows(s: Store, q: seq<Op>, op: StoreOp, i: int)
    requires |s.slots| == MAX_SLOTS && LeavingHolds(s) && IsSlot(i)
    ensures var o := Step(s, q, op);
      && |o.store.slots| == MAX_SLOTS && LeavingHolds(o.store)
      && Follows(s.slots[i], o.store.slots[i])
      && (Supersedes(op, o.result, i) ==> s.slots[i].gen < o.store.slots[i].gen)
  {
    hide Total;
  }

  lemma {:induction false} RunFollows(s: Store, q: seq<Op>, ops: seq<StoreOp>, i: int)
    requires |s.slots| == MAX_SLOTS && LeavingHolds(s) && IsSlot(i)
    ensures |Run(s, q, ops).slots| == MAX_SLOTS && LeavingHolds(Run(s, q, ops))
    ensures Follows(s.slots[i], Run(s, q, ops).slots[i])
    ensures Superseded(s, q, ops, i) ==> s.slots[i].gen < Run(s, q, ops).slots[i].gen
    decreases |ops|
  {
    if ops != [] {
      StepFollows(s, q, ops[0], i);
      RunFollows(Step(s, q, ops[0]).store, Step(s, q, ops[0]).queue, ops[1..], i);
    }
  }

  /**
   * A delete requested in `s` and completed after any operations `ops`, other deletes and
   * completions among them: if the completion acts at all, the slot still holds exactly what it
   * held at the request; once the slot was committed or moved it is STALE and changes nothing.
   */
  lemma CompletionOwnsItsContent(s: Store, q: seq<Op>, i: int, ops: seq<StoreOp>, ok: bool)
    requires |s.slots| == MAX_SLOTS && LeavingHolds(s) && DeleteSlot(s, q, i).result == DeleteDeferred
    ensures
      var requested := DeleteSlot(s, q, i);
      var later := Run(requested.store, requested.queue, ops);
      && |later.slots| == MAX_SLOTS
      && var (done, rc) := CompleteDelete(later, i, s.slots[i].gen, ok);
        && (rc != DeleteStale ==> later.slots[i].events == s.View(i) && rc == if ok then Ok else DeleteFailed)
        && (rc == DeleteStale ==> done == later)
        && (Superseded(requested.store, requested.queue, ops, i) ==> rc == DeleteStale)
  {
    var requested := DeleteSlot(s, q, i);
    RunFollows(requested.store, requested.queue, ops, i);
  }

  /** No operation of `ops` takes the slot over or completes this very delete. */
  ghost predicate Undisturbed(s: Store, q: seq<Op>, ops: seq<StoreOp>, i: int, gen: nat)
    requires |s.slots| == MAX_SLOTS
  {
    && !Superseded(s, q, ops, i)
    && forall k :: 0 <= k < |ops| ==> !(ops[k].CompleteOp? && ops[k].slot == i && ops[k].gen == gen)
  }

  lemma {:induction false} UndisturbedSlotWaits(s: Store, q: seq<Op>, ops: seq<StoreOp>, i: int)
    requires |s.slots| == MAX_SLOTS && IsSlot(i) && s.slots[i].pending && Undisturbed(s, q, ops, i, s.slots[i].gen)
    ensures |Run(s, q, ops).slots| == MAX_SLOTS && Run(s, q, ops).slots[i] == s.slots[i]
    decreases |ops|
  {
    hide Total;
    if ops != [] {
      StepKeepsSlotCount(s, q, ops[0]);
      UndisturbedSlotWaits(Step(s, q, ops[0]).store, Step(s, q, ops[0]).queue, ops[1..], i);
    }
  }

  /**
   * An undisturbed completion does act, whatever else happened: it frees the slot, unless the slot
   * is playing, and on a storage failure brings the macro back as it was when its delete was requested.
   */
  lemma CompletionTakesEffect(s: Store, q: seq<Op>, i: int, ops: seq<StoreOp>, ok: bool)
    requires |s.slots| == MAX_SLOTS && DeleteSlot(s, q, i).result == DeleteDeferred
    requires
      var requested := DeleteSlot(s, q, i);
      Undisturbed(requested.store, requested.queue, ops, i, s.slots[i].gen)
    ensures
      var requested := DeleteSlot(s, q, i);
      var later := Run(requested.store, requested.queue, ops);
      && |later.slots| == MAX_SLOTS
      && var (done, rc) := CompleteDelete(later, i, s.slots[i].gen, ok);
         && |done.slots| == MAX_SLOTS && rc == (if ok then Ok else DeleteFailed)
         && done.slots[i].events == (if ok && later.playing != i then [] else s.View(i))
         && done.View(i) == done.slots[i].events
  {
    var requested := DeleteSlot(s, q, i);
    UndisturbedSlotWaits(requested.store, requested.queue, ops, i);
  }

  /** The delete a move queues for its own source never frees anything, whatever happens in between. */
  lemma MoveSourceCompletionIsStale(s: Store, q: seq<Op>, src: int, dst: int, ops: seq<StoreOp>, ok: bool)
    requires |s.slots| == MAX_SLOTS && LeavingHolds(s) && Move(s, q, src, dst).result == Ok
    ensures
      var moved := Move(s, q, src, dst);
      var later := Run(moved.store, moved.queue, ops);
      |later.slots| == MAX_SLOTS && CompleteDelete(later, src, moved.store.slots[src].gen, ok) == (later, DeleteStale)
    ensures IsNvs(src) ==> Delete(src, Move(s, q, src, dst).store.slots[src].gen) in Move(s, q, src, dst).queue
  {
    StepFollows(s, q, MoveOp(src, dst), src);
    var moved := Move(s, q, src, dst);
    RunFollows(moved.store, moved.queue, ops, src);
  }

  lemma StepKeepsValid(s: Store, q: seq<Op>, op: StoreOp)
    requires s.Valid()
    ensures Step(s, q, op).store.Valid()
  {
    match op {
      case MoveOp(src, dst) => MoveKeepsValid(s, q, src, dst);
      case DeleteOp(i) => DeleteRefines(s, q, i);
      case CompleteOp(i, gen, ok) => CompleteKeepsValid(s, i, gen, ok);
      case CommitOp(i) => CommitRefines(s, i);
      case _ =>
    }
  }
}
