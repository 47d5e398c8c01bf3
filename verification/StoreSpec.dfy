/**
 * What slot_store.c means: a value-level store whose slots hold event sequences instead of
 * arena offsets, together with the bounded storage queue it persists through.
 * SlotArena.dfy proves that the arena implementation computes exactly these functions.
 */
module StoreSpec {
  import opened Config

  /** `events` is the slot's arena region; `pending` marks a delete whose completion is due. */
  datatype Slot = Slot(events: seq<Event>, pending: bool, gen: nat)

  const FREE_SLOT: Slot := Slot([], false, 0)

  /** Operations queued for the storage worker. */
  datatype Op =
    | Save(slot: int, events: seq<Event>, gen: nat)
    | Delete(slot: int, gen: nat)
    | SaveKnobs(level: U8, style: U8, erase: U8)

  const QUEUE_LEN: nat := 4

  datatype Store = Store(slots: seq<Slot>, draft: seq<Event>, playing: int) {
    ghost predicate Valid() {
      && |slots| == MAX_SLOTS
      && |draft| <= MAX_EVENTS
      && (forall i :: IsNvs(i) ==> |slots[i].events| <= MAX_EVENTS_NVS)
      && Total(slots) <= ARENA_EVENTS
    }

    function With(i: int, s: Slot): Store
      requires 0 <= i < |slots|
    {
      this.(slots := slots[i := s])
    }

    predicate IsEmpty(i: int)
      requires |slots| == MAX_SLOTS
    {
      !IsSlot(i) || slots[i].events == [] || slots[i].pending
    }

    /** What slot_store_get shows: the empty view for an invalid, empty or leaving slot. */
    function View(i: int): seq<Event>
      requires |slots| == MAX_SLOTS
    {
      if IsEmpty(i) then [] else slots[i].events
    }
  }

  /** Every slot shows the same macro, or none, in both. */
  predicate SameViews(s: Store, s': Store)
    requires |s.slots| == MAX_SLOTS && |s'.slots| == MAX_SLOTS
  {
    forall j :: 0 <= j < MAX_SLOTS ==> s'.View(j) == s.View(j)
  }

  datatype Outcome = Outcome(store: Store, queue: seq<Op>, result: DmResult)

  /** Events occupying the pool, those of leaving slots included. */
  function Total(slots: seq<Slot>): nat {
    if slots == [] then 0 else Total(slots[..|slots| - 1]) + |slots[|slots| - 1].events|
  }

  function Init(): (s: Store)
    ensures |s.slots| == MAX_SLOTS
  {
    Store(seq(MAX_SLOTS, _ => FREE_SLOT), [], -1)
  }

  lemma InitIsValid()
    ensures Init().Valid()
  {
    TotalFree(Init().slots);
  }

  /** Slots of [lo, hi) that show a macro. */
  ghost function FilledSlots(s: Store, lo: int, hi: int): set<int>
    requires |s.slots| == MAX_SLOTS
  {
    set i | lo <= i < hi && !s.IsEmpty(i)
  }

  datatype SlotClass = AllSlots | NvsSlots | RamSlots

  predicate InClass(cls: SlotClass, i: int) {
    IsSlot(i) && (cls == NvsSlots ==> IsNvs(i)) && (cls == RamSlots ==> !IsNvs(i))
  }

  /** Slots of the class that show a macro. */
  ghost function FilledOf(s: Store, cls: SlotClass): set<int>
    requires |s.slots| == MAX_SLOTS
  {
    set i | 0 <= i < MAX_SLOTS && InClass(cls, i) && !s.IsEmpty(i)
  }

  lemma FilledStep(s: Store, lo: int, i: int)
    requires |s.slots| == MAX_SLOTS && lo <= i
    ensures |FilledSlots(s, lo, i + 1)| == |FilledSlots(s, lo, i)| + if s.IsEmpty(i) then 0 else 1
  {
    assert FilledSlots(s, lo, i + 1) == FilledSlots(s, lo, i) + if s.IsEmpty(i) then {} else {i};
  }

  // ---- persistence helpers --------------------------------------------------

  function NvsSave(s: Store, q: seq<Op>, i: int): (seq<Op>, DmResult)
    requires |s.slots| == MAX_SLOTS && IsSlot(i)
  {
    if !IsNvs(i) then (q, Ok)
    else if |s.slots[i].events| > MAX_EVENTS_NVS then (q, RejectedTooLarge)
    else if |q| < QUEUE_LEN then (q + [Save(i, s.slots[i].events, s.slots[i].gen)], Ok)
    else (q, SaveQueueFull)
  }

  function NvsDelete(s: Store, q: seq<Op>, i: int): (seq<Op>, DmResult)
    requires |s.slots| == MAX_SLOTS && IsSlot(i)
  {
    if !IsNvs(i) then (q, Ok)
    else if |q| < QUEUE_LEN then (q + [Delete(i, s.slots[i].gen)], Ok)
    else (q, DeleteQueueFull)
  }

  // ---- mutations -------------------------------------------------------------

  function Move(s: Store, q: seq<Op>, src: int, dst: int): Outcome
    requires |s.slots| == MAX_SLOTS
  {
    if !IsSlot(src) || !IsSlot(dst) || s.IsEmpty(src) then Outcome(s, q, RejectedEmpty)
    else if !s.IsEmpty(dst) then Outcome(s, q, RejectedOccupied)
    else if IsNvs(dst) && |s.slots[src].events| > MAX_EVENTS_NVS then Outcome(s, q, RejectedTooLarge)
    else
      var written := s.With(dst, Slot(s.slots[src].events, false, s.slots[dst].gen + 1));
      var (q1, rc) := NvsSave(written, q, dst);
      if rc != Ok then Outcome(RolledBack(s, dst), q1, rc)
      else
        var (q2, rc2) := NvsDelete(Relocated(s, src, dst), q1, src);
        Outcome(Relocated(s, src, dst), q2, rc2)
  }

  /** A move whose save was refused: whatever `dst` still held is gone, its stamp is spent twice. */
  function RolledBack(s: Store, dst: int): Store
    requires |s.slots| == MAX_SLOTS && IsSlot(dst)
  {
    s.With(dst, Slot([], false, s.slots[dst].gen + 2))
  }

  /** Both descriptors after a move: `dst` owns the events, `src` is free, both stamps are new. */
  function Relocated(s: Store, src: int, dst: int): Store
    requires |s.slots| == MAX_SLOTS && IsSlot(src) && IsSlot(dst)
  {
    s.With(dst, Slot(s.slots[src].events, false, s.slots[dst].gen + 1)).With(src, Slot([], false, s.slots[src].gen + 1))
  }

  function Persist(s: Store, q: seq<Op>, i: int): Outcome
    requires |s.slots| == MAX_SLOTS
  {
    if !IsSlot(i) then Outcome(s, q, RejectedEmpty)
    else var (q1, rc) := NvsSave(s, q, i); Outcome(s, q1, rc)
  }

  function DeleteSlot(s: Store, q: seq<Op>, i: int): Outcome
    requires |s.slots| == MAX_SLOTS
  {
    if s.IsEmpty(i) then Outcome(s, q, RejectedEmpty)
    else if IsNvs(i) then
      var (q1, rc) := NvsDelete(s, q, i);
      if rc != Ok then Outcome(s, q1, rc)
      else Outcome(s.With(i, s.slots[i].(pending := true)), q1, DeleteDeferred)
    else Outcome(s.With(i, s.slots[i].(events := [])), q, Ok)
  }

  function CompleteDelete(s: Store, i: int, gen: nat, ok: bool): (Store, DmResult)
    requires |s.slots| == MAX_SLOTS
  {
    if !IsSlot(i) || !s.slots[i].pending || s.slots[i].gen != gen then (s, DeleteStale)
    else if !ok then (s.With(i, s.slots[i].(pending := false)), DeleteFailed)
    else if s.playing != i then (s.With(i, Slot([], false, gen)), Ok)
    else (s.With(i, s.slots[i].(pending := false)), Ok)
  }

  function DraftReset(s: Store): Store { s.(draft := []) }

  function DraftAppend(s: Store, e: Event): (Store, bool) {
    if |s.draft| >= MAX_EVENTS then (s, false) else (s.(draft := s.draft + [e]), true)
  }

  function DraftChain(s: Store, src: int): (Store, DmResult)
    requires |s.slots| == MAX_SLOTS
  {
    if s.IsEmpty(src) then (s, RejectedEmpty)
    else if |s.draft| + |s.slots[src].events| > MAX_EVENTS then (s, RejectedFull)
    else (s.(draft := s.draft + s.slots[src].events), Ok)
  }

  function DraftCommit(s: Store, dst: int): (Store, DmResult)
    requires |s.slots| == MAX_SLOTS
  {
    if !IsSlot(dst) || !s.IsEmpty(dst) then (s, RejectedOccupied)
    else if IsNvs(dst) && |s.draft| > MAX_EVENTS_NVS then (s, RejectedTooLarge)
    else if s.playing != -1 || |s.draft| + Total(s.slots) > ARENA_EVENTS then (s, RejectedFull)
    else (s.With(dst, Slot(s.draft, false, s.slots[dst].gen + 1)), Ok)
  }

  /** The restore surface: `events` comes decoded from flash. */
  function Load(s: Store, i: int, events: seq<Event>): (Store, bool)
    requires |s.slots| == MAX_SLOTS
  {
    if !IsSlot(i) || |events| > MAX_EVENTS_NVS then (s, false)
    else
      var freed := s.With(i, s.slots[i].(events := []));
      if s.playing != -1 || |events| + Total(freed.slots) > ARENA_EVENTS then (freed, false)
      else (s.With(i, Slot(events, false, s.slots[i].gen)), true)
  }

  function Reset(s: Store): Store
    requires |s.slots| == MAX_SLOTS
  {
    s.(slots := seq(MAX_SLOTS, _ => FREE_SLOT))
  }

  function MarkPlaying(s: Store, i: int): Store { s.(playing := i) }

  function ClearPlaying(s: Store): Store { s.(playing := -1) }

  // ---- occupancy --------------------------------------------------------------

  lemma {:induction false} TotalUpdate(slots: seq<Slot>, i: int, s: Slot)
    requires 0 <= i < |slots|
    ensures Total(slots[i := s]) == Total(slots) - |slots[i].events| + |s.events|
    ensures |slots[i].events| <= Total(slots)
  {
    var n := |slots| - 1;
    assert slots[i := s][..n] == if i == n then slots[..n] else slots[..n][i := s];
    if i < n {
      TotalUpdate(slots[..n], i, s);
    }
  }

  lemma {:induction false} TotalMonotone(a: seq<Slot>, b: seq<Slot>)
    requires |a| == |b| && forall i :: 0 <= i < |a| ==> |a[i].events| <= |b[i].events|
    ensures Total(a) <= Total(b)
  {
    if a != [] {
      TotalMonotone(a[..|a| - 1], b[..|b| - 1]);
    }
  }

  lemma {:induction false} TotalFree(slots: seq<Slot>)
    requires forall i :: 0 <= i < |slots| ==> slots[i].events == []
    ensures Total(slots) == 0
  {
    if slots != [] {
      TotalFree(slots[..|slots| - 1]);
    }
  }
}
