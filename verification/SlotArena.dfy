/**
 * slot_store.c as it runs: one event array shared by all slots, descriptors into it, lazy
 * in-place compaction, and a move that aliases a descriptor. Every method is proved to do
 * to the ghost `model` what StoreSpec says.
 */
module SlotArena {
  import opened Config
  import opened StoreSpec
  import opened StoreLaws
  import opened Storage

  /** A slot's events live at arena[start .. start + count]; count 0 means empty. */
  datatype Meta = Meta(start: nat, count: nat) {
    function End(): nat { start + count }
  }

  predicate Live(m: Meta) { m.count > 0 }

  /** `b` lies entirely above `a`. */
  predicate Below(a: Meta, b: Meta) { a.End() <= b.start }

  ghost predicate Apart(a: Meta, b: Meta) {
    Live(a) && Live(b) ==> Below(a, b) || Below(b, a)
  }

  ghost predicate Disjoint(ms: seq<Meta>) {
    forall i, j :: 0 <= i < j < |ms| ==> Apart(ms[i], ms[j])
  }

  /** Each descriptor names, inside the arena, exactly the events of its slot. */
  ghost predicate Describes(arena: seq<Event>, ms: seq<Meta>, slots: seq<Slot>) {
    && |slots| <= |ms|
    && forall i :: 0 <= i < |slots| ==> ms[i].End() <= |arena| && arena[ms[i].start..ms[i].End()] == slots[i].events
  }

  ghost predicate Indexes(order: seq<int>, ms: seq<Meta>) {
    forall a :: 0 <= a < |order| ==> 0 <= order[a] < |ms|
  }

  /** Indices listed from the lowest region to the highest. */
  ghost predicate Ascending(order: seq<int>, ms: seq<Meta>)
    requires Indexes(order, ms)
  {
    forall a, b :: 0 <= a < b < |order| ==> Below(ms[order[a]], ms[order[b]])
  }

  ghost function CountSum(order: seq<int>, ms: seq<Meta>): nat
    requires Indexes(order, ms)
  {
    if order == [] then 0 else CountSum(order[..|order| - 1], ms) + ms[order[|order| - 1]].count
  }

  lemma {:induction false} CountSumInsert(front: seq<int>, i: int, back: seq<int>, ms: seq<Meta>)
    requires Indexes(front + [i] + back, ms) && Indexes(front + back, ms) && 0 <= i < |ms|
    ensures CountSum(front + [i] + back, ms) == CountSum(front + back, ms) + ms[i].count
  {
    var wide, narrow := front + [i] + back, front + back;
    if back == [] {
      assert wide[..|wide| - 1] == front && narrow == front && wide[|wide| - 1] == i;
    } else {
      var last := back[|back| - 1];
      var rest := back[..|back| - 1];
      assert wide[..|wide| - 1] == front + [i] + rest && narrow[..|narrow| - 1] == front + rest;
      assert wide[|wide| - 1] == last && narrow[|narrow| - 1] == last;
      CountSumInsert(front, i, rest, ms);
    }
  }

  /** The live indices below `n`, lowest region first, together holding `Total` events. */
  ghost predicate Orders(order: seq<int>, n: nat, ms: seq<Meta>, slots: seq<Slot>)
    requires n <= |slots| <= |ms|
  {
    && Indexes(order, ms)
    && (forall i :: i in order <==> 0 <= i < n && Live(ms[i]))
    && Ascending(order, ms)
    && CountSum(order, ms) == Total(slots[..n])
  }

  function Inserted(order: seq<int>, j: nat, i: int): seq<int>
    requires j <= |order|
  {
    order[..j] + [i] + order[j..]
  }

  lemma InsertedAt(order: seq<int>, wide: seq<int>, j: nat, i: int)
    requires j <= |order| && |wide| == |order| + 1 && wide[j] == i
    requires forall a :: 0 <= a < j ==> wide[a] == order[a]
    requires forall a :: j < a < |wide| ==> wide[a] == order[a - 1]
    ensures wide == Inserted(order, j, i)
  {
    assert wide[..j] == order[..j] && wide[j + 1..] == order[j..];
    assert wide == wide[..j] + [wide[j]] + wide[j + 1..];
  }

  lemma InsertedMembers(order: seq<int>, j: nat, n: int)
    requires j <= |order|
    ensures forall i :: i in Inserted(order, j, n) <==> i in order || i == n
  {
    assert order[..j] + order[j..] == order;
  }

  lemma InsertedAscending(order: seq<int>, n: nat, ms: seq<Meta>, j: nat)
    requires Indexes(order, ms) && Ascending(order, ms) && n < |ms| && j <= |order| && Live(ms[n])
    requires forall a :: 0 <= a < |order| ==> Live(ms[order[a]]) && Apart(ms[order[a]], ms[n])
    requires forall a :: 0 <= a < j ==> ms[order[a]].start <= ms[n].start
    requires forall a :: j <= a < |order| ==> ms[n].start < ms[order[a]].start
    ensures Indexes(Inserted(order, j, n), ms) && Ascending(Inserted(order, j, n), ms)
  {
    var wide := Inserted(order, j, n);
    assert forall a :: 0 <= a < |wide| ==> wide[a] == if a < j then order[a] else if a == j then n else order[a - 1];
    forall a, b | 0 <= a < b < |wide|
      ensures 0 <= wide[a] < |ms| && 0 <= wide[b] < |ms| && Below(ms[wide[a]], ms[wide[b]])
    {
      var u, v := if a < j then a else a - 1, if b < j then b else b - 1;
      assert a != j ==> wide[a] == order[u];
      assert b != j ==> wide[b] == order[v];
    }
  }

  lemma AscendingStarts(order: seq<int>, ms: seq<Meta>, j: nat, start: nat)
    requires Indexes(order, ms) && Ascending(order, ms) && j <= |order|
    requires j > 0 ==> ms[order[j - 1]].start <= start
    ensures forall a :: 0 <= a < j ==> ms[order[a]].start <= start
  {
    forall a | 0 <= a < j - 1
      ensures Below(ms[order[a]], ms[order[j - 1]])
    {
    }
  }

  lemma OrdersInsert(order: seq<int>, n: nat, ms: seq<Meta>, slots: seq<Slot>, j: nat)
    requires n < |slots| <= |ms| && Orders(order, n, ms, slots)
    requires Live(ms[n]) && |slots[n].events| == ms[n].count && j <= |order|
    requires Indexes(Inserted(order, j, n), ms) && Ascending(Inserted(order, j, n), ms)
    ensures Orders(Inserted(order, j, n), n + 1, ms, slots)
  {
    InsertedMembers(order, j, n);
    assert order[..j] + order[j..] == order;
    CountSumInsert(order[..j], n, order[j..], ms);
    assert slots[..n + 1][..n] == slots[..n];
  }

  /** Inserting the next live slot after everything that starts no higher keeps the order. */
  lemma OrdersGrow(order: seq<int>, n: nat, ms: seq<Meta>, slots: seq<Slot>, arena: seq<Event>, j: nat)
    requires n < |slots| && Describes(arena, ms, slots) && Disjoint(ms[..|slots|]) && Orders(order, n, ms, slots)
    requires Live(ms[n]) && j <= |order|
    requires forall a :: 0 <= a < j ==> ms[order[a]].start <= ms[n].start
    requires forall a :: j <= a < |order| ==> ms[n].start < ms[order[a]].start
    ensures Orders(Inserted(order, j, n), n + 1, ms, slots)
  {
    forall a | 0 <= a < |order|
      ensures Live(ms[order[a]]) && Apart(ms[order[a]], ms[n])
    {
      assert order[a] in order;
      assert Apart(ms[..|slots|][order[a]], ms[..|slots|][n]);
    }
    InsertedAscending(order, n, ms, j);
    OrdersInsert(order, n, ms, slots, j);
  }

  lemma OrdersSkip(order: seq<int>, n: nat, ms: seq<Meta>, slots: seq<Slot>, arena: seq<Event>)
    requires n < |slots| && Describes(arena, ms, slots) && Orders(order, n, ms, slots)
    requires !Live(ms[n])
    ensures Orders(order, n + 1, ms, slots)
  {
    assert slots[..n + 1][..n] == slots[..n];
  }

  lemma {:induction false} CountSumSame(order: seq<int>, ms: seq<Meta>, ms': seq<Meta>)
    requires Indexes(order, ms) && |ms| == |ms'| && forall i :: 0 <= i < |ms| ==> ms'[i].count == ms[i].count
    ensures CountSum(order, ms') == CountSum(order, ms)
  {
    if order != [] {
      CountSumSame(order[..|order| - 1], ms, ms');
    }
  }

  /** The first `k` regions of `order` are packed below `w`, the others still lie above it. */
  ghost predicate Packing(order: seq<int>, k: nat, w: nat, ms: seq<Meta>, slots: seq<Slot>) {
    && k <= |order| && |slots| <= |ms|
    && Orders(order, |slots|, ms, slots)
    && w == CountSum(order[..k], ms)
    && (forall a :: 0 <= a < k ==> ms[order[a]].End() <= w)
    && (forall a :: k <= a < |order| ==> w <= ms[order[a]].start)
  }

  lemma PackingMembers(order: seq<int>, k: nat, w: nat, ms: seq<Meta>, slots: seq<Slot>)
    requires Packing(order, k, w, ms, slots) && k < |order|
    ensures 0 <= order[k] < |slots| && Live(ms[order[k]])
    ensures forall a :: 0 <= a < |order| && a != k ==> order[a] != order[k]
    ensures forall a :: k < a < |order| ==> w + ms[order[k]].count <= ms[order[a]].start
    ensures forall i :: 0 <= i < |slots| && i != order[k] && Live(ms[i]) ==>
      ms[i].End() <= w || w + ms[order[k]].count <= ms[i].start
  {
    assert order[k] in order;
    forall i | 0 <= i < |slots| && i != order[k] && Live(ms[i])
      ensures ms[i].End() <= w || w + ms[order[k]].count <= ms[i].start
    {
      assert i in order;
      var a :| 0 <= a < |order| && order[a] == i;
    }
  }

  lemma PackingStep(order: seq<int>, k: nat, w: nat, ms: seq<Meta>, ms': seq<Meta>, slots: seq<Slot>)
    requires Packing(order, k, w, ms, slots) && k < |order|
    requires ms' == ms[order[k] := Meta(w, ms[order[k]].count)]
    ensures Packing(order, k + 1, w + ms[order[k]].count, ms', slots)
  {
    PackingMembers(order, k, w, ms, slots);
    CountSumSame(order, ms, ms');
    CountSumSame(order[..k + 1], ms, ms');
    assert order[..k + 1][..k] == order[..k];
  }

  /** What one round of the compaction loop may assume, and the packing it reaches. */
  lemma PackingAdvance(order: seq<int>, k: nat, w: nat, ms: seq<Meta>, slots: seq<Slot>, arena: seq<Event>)
    requires Packing(order, k, w, ms, slots) && k < |order| && Describes(arena, ms, slots) && |arena| <= 65535
    ensures
      var i := order[k];
      && 0 <= i < |slots|
      && w <= ms[i].start && (w + ms[i].count) % 0x1_0000 == w + ms[i].count
      && CanSlide(i, w, ms, slots)
      && Packing(order, k + 1, w + ms[i].count, ms[i := Meta(w, ms[i].count)], slots)
  {
    PackingMembers(order, k, w, ms, slots);
    PackingStep(order, k, w, ms, ms[order[k] := Meta(w, ms[order[k]].count)], slots);
  }

  /** Slot `i`'s events can be copied to `w` without touching another live region. */
  ghost predicate CanSlide(i: int, w: nat, ms: seq<Meta>, slots: seq<Slot>)
    requires 0 <= i < |slots| <= |ms|
  {
    && w <= ms[i].start
    && forall j :: 0 <= j < |slots| && j != i && Live(ms[j]) ==> ms[j].End() <= w || w + ms[i].count <= ms[j].start
  }

  lemma DescribesMove(arena: seq<Event>, arena': seq<Event>, ms: seq<Meta>, slots: seq<Slot>, i: int, w: nat)
    requires Describes(arena, ms, slots) && 0 <= i < |slots|
    requires CanSlide(i, w, ms, slots) && |arena'| == |arena|
    requires arena'[w..w + ms[i].count] == arena[ms[i].start..ms[i].End()]
    requires forall p :: 0 <= p < |arena| && !(w <= p < w + ms[i].count) ==> arena'[p] == arena[p]
    ensures Describes(arena', ms[i := Meta(w, ms[i].count)], slots)
  {
    forall j | 0 <= j < |slots| && j != i
      ensures arena'[ms[j].start..ms[j].End()] == slots[j].events
    {
      assert arena'[ms[j].start..ms[j].End()] == arena[ms[j].start..ms[j].End()];
    }
  }

  /** Where every live region ends up: gapless from 0, in the old offset order. */
  ghost predicate Packed(ms0: seq<Meta>, ms: seq<Meta>, n: nat, free: nat)
    requires n <= |ms0| && n <= |ms|
  {
    && (forall i :: 0 <= i < n ==> ms[i].count == ms0[i].count && (Live(ms[i]) ==> ms[i].End() <= free))
    && forall i, j :: 0 <= i < n && 0 <= j < n && Live(ms0[i]) && Live(ms0[j]) && ms0[i].start < ms0[j].start ==>
         Below(ms[i], ms[j])
  }

  ghost predicate SameCounts(ms0: seq<Meta>, ms: seq<Meta>) {
    |ms| == |ms0| && forall i :: 0 <= i < |ms0| ==> ms[i].count == ms0[i].count
  }

  lemma PackingStart(order: seq<int>, ms: seq<Meta>, slots: seq<Slot>)
    requires |slots| <= |ms| && Orders(order, |slots|, ms, slots)
    ensures Packing(order, 0, 0, ms, slots)
  {
  }

  lemma PackingDone(order: seq<int>, w: nat, ms0: seq<Meta>, ms: seq<Meta>, slots: seq<Slot>)
    requires Packing(order, |order|, w, ms, slots) && SameCounts(ms0, ms)
    requires Orders(order, |slots|, ms0, slots)
    ensures w == Total(slots) && Disjoint(ms[..|slots|]) && Packed(ms0, ms, |slots|, w)
  {
    assert order[..|order|] == order && slots[..|slots|] == slots;
    forall i, j | 0 <= i < |slots| && 0 <= j < |slots| && i != j && Live(ms[i]) && Live(ms[j])
      ensures ms[i].End() <= w && Apart(ms[i], ms[j]) && (ms0[i].start < ms0[j].start ==> Below(ms[i], ms[j]))
    {
      assert i in order && j in order;
      var a :| 0 <= a < |order| && order[a] == i;
      var b :| 0 <= b < |order| && order[b] == j;
    }
    forall i | 0 <= i < |slots| && Live(ms[i])
      ensures ms[i].End() <= w
    {
      assert i in order;
    }
  }

  lemma DisjointPut(ms: seq<Meta>, n: nat, i: int, m: Meta)
    requires n <= |ms| && Disjoint(ms[..n]) && 0 <= i < n
    requires forall j :: 0 <= j < n && j != i ==> Apart(m, ms[j])
    ensures Disjoint(ms[i := m][..n])
  {
    var before, after := ms[..n], ms[i := m][..n];
    forall a, b | 0 <= a < b < n
      ensures Apart(after[a], after[b])
    {
      assert Apart(before[a], before[b]);
    }
  }

  /** Handing a region from `src` to a slot that owns nothing else leaves nothing owned twice. */
  lemma DisjointMove(ms: seq<Meta>, n: nat, src: int, dst: int)
    requires n <= |ms| && Disjoint(ms[..n]) && 0 <= src < n && 0 <= dst < n && src != dst
    ensures Disjoint(ms[dst := ms[src]][src := Meta(ms[src].start, 0)][..n])
  {
    var freed := ms[src := Meta(ms[src].start, 0)];
    DisjointPut(ms, n, src, Meta(ms[src].start, 0));
    forall j | 0 <= j < n && j != src
      ensures Apart(ms[src], ms[j])
    {
      assert Apart(ms[..n][j], ms[..n][src]) || Apart(ms[..n][src], ms[..n][j]);
    }
    DisjointPut(freed, n, dst, ms[src]);
    assert freed[dst := ms[src]] == ms[dst := ms[src]][src := Meta(ms[src].start, 0)];
  }

  /** The arrays say about every slot what `slots` says. */
  ghost predicate Mirrors(arena: seq<Event>, ms: seq<Meta>, leaving: seq<bool>, gens: seq<nat>, slots: seq<Slot>) {
    && |slots| <= |leaving| && |slots| <= |gens|
    && Describes(arena, ms, slots)
    && forall i :: 0 <= i < |slots| ==> leaving[i] == slots[i].pending && gens[i] == slots[i].gen
  }

  lemma MirrorsPut(
      arena: seq<Event>, ms: seq<Meta>, leaving: seq<bool>, gens: seq<nat>, slots: seq<Slot>,
      i: int, m: Meta, slot: Slot)
    requires Mirrors(arena, ms, leaving, gens, slots) && 0 <= i < |slots|
    requires m.End() <= |arena| && arena[m.start..m.End()] == slot.events
    ensures Mirrors(arena, ms[i := m], leaving[i := slot.pending], gens[i := slot.gen], slots[i := slot])
  {
  }

  lemma FreshLayout(arena: seq<Event>, ms: seq<Meta>, leaving: seq<bool>, gens: seq<nat>)
    requires |leaving| == |ms| == |gens| >= MAX_SLOTS
    requires forall i :: 0 <= i < |ms| ==> ms[i] == Meta(0, 0) && !leaving[i] && gens[i] == 0
    ensures Mirrors(arena, ms, leaving, gens, Init().slots) && Disjoint(ms[..MAX_SLOTS])
  {
    var slots := Init().slots;
    forall i | 0 <= i < MAX_SLOTS
      ensures slots[i] == FREE_SLOT && ms[i].End() <= |arena| && arena[ms[i].start..ms[i].End()] == slots[i].events
    {
      assert ms[i] == Meta(0, 0) && arena[0..0] == [];
    }
  }

  /** Writing above every live region leaves all of them as they were. */
  lemma MirrorsAbove(
      arena: seq<Event>, arena': seq<Event>, ms: seq<Meta>, leaving: seq<bool>, gens: seq<nat>, slots: seq<Slot>,
      used: nat)
    requires Mirrors(arena, ms, leaving, gens, slots)
    requires |arena'| == |arena| && used <= |arena| && arena'[..used] == arena[..used]
    requires forall j :: 0 <= j < |slots| && Live(ms[j]) ==> ms[j].End() <= used
    ensures Mirrors(arena', ms, leaving, gens, slots)
  {
    forall j | 0 <= j < |slots|
      ensures arena'[ms[j].start..ms[j].End()] == slots[j].events
    {
      if Live(ms[j]) {
        assert arena'[ms[j].start..ms[j].End()] == arena'[..used][ms[j].start..ms[j].End()];
        assert arena[ms[j].start..ms[j].End()] == arena[..used][ms[j].start..ms[j].End()];
      }
    }
  }

  class SlotStore {
    const arena: array<Event>
    const meta: array<Meta>
    const pendingDelete: array<bool>
    const generation: array<nat>
    const draft: array<Event>
    const sink: NvsBackend
    var draftCount: nat
    var playingSlot: int
    ghost var model: Store

    ghost predicate Shape()
      reads this
    {
      && arena.Length == ARENA_EVENTS && draft.Length == MAX_EVENTS && arena != draft
      && meta.Length == pendingDelete.Length == generation.Length == SLOT_CAPACITY
    }

    ghost predicate MirrorsModel()
      reads this, arena, meta, pendingDelete, generation
    {
      Mirrors(arena[..], meta[..], pendingDelete[..], generation[..], model.slots)
    }

    ghost predicate Valid()
      reads this, arena, meta, pendingDelete, generation, draft
    {
      && Shape()
      && model.Valid()
      && MirrorsModel()
      && Disjoint(meta[..MAX_SLOTS])
      && draftCount <= MAX_EVENTS && draft[..draftCount] == model.draft
      && playingSlot == model.playing
    }

    constructor (sink: NvsBackend)
      ensures Valid() && model == Init() && this.sink == sink
      ensures fresh(arena) && fresh(meta) && fresh(pendingDelete) && fresh(generation) && fresh(draft)
    {
      arena := new Event[ARENA_EVENTS](_ => NO_EVENT);
      meta := new Meta[SLOT_CAPACITY](_ => Meta(0, 0));
      pendingDelete := new bool[SLOT_CAPACITY](_ => false);
      generation := new nat[SLOT_CAPACITY](_ => 0);
      draft := new Event[MAX_EVENTS](_ => NO_EVENT);
      this.sink := sink;
      draftCount, playingSlot, model := 0, -1, Init();
      new;
      assert model.Valid() by { InitIsValid(); }
      assert Shape() by { SizesFit(); }
      assert MirrorsModel() && Disjoint(meta[..MAX_SLOTS]) by {
        FreshLayout(arena[..], meta[..], pendingDelete[..], generation[..]);
      }
    }

    /** memmove towards lower offsets; the two regions may overlap. */
    method MoveDown(dst: nat, src: nat, len: nat)
      requires dst <= src && src + len <= arena.Length
      modifies arena
      ensures arena[dst..dst + len] == old(arena[src..src + len])
      ensures forall p :: 0 <= p < arena.Length && !(dst <= p < dst + len) ==> arena[p] == old(arena[p])
    {
      ghost var before := arena[..];
      for k := 0 to len
        invariant forall p :: dst <= p < dst + k ==> arena[p] == before[p + src - dst]
        invariant forall p :: 0 <= p < dst || dst + k <= p < arena.Length ==> arena[p] == before[p]
      {
        arena[dst + k] := arena[src + k];
      }
    }

    /** One step of the insertion sort: shift larger starts up and drop `i` into the hole. */
    method InsertByStart(order: array<int>, n: nat, i: int) returns (ghost at: nat)
      requires n < order.Length && 0 <= i < meta.Length
      requires Indexes(order[..n], meta[..]) && Ascending(order[..n], meta[..])
      modifies order
      ensures at <= n && order[..n + 1] == Inserted(old(order[..n]), at, i)
      ensures forall a :: 0 <= a < at ==> meta[old(order[a])].start <= meta[i].start
      ensures forall a :: at <= a < n ==> meta[i].start < meta[old(order[a])].start
    {
      hide Ascending;
      ghost var before := order[..n];
      var j := n;
      while j > 0 && meta[order[j - 1]].start > meta[i].start
        invariant 0 <= j <= n
        invariant forall a :: 0 <= a < j ==> order[a] == before[a]
        invariant forall a :: j < a <= n ==> order[a] == before[a - 1]
        invariant forall a :: j <= a < n ==> meta[i].start < meta[before[a]].start
      {
        order[j] := order[j - 1];
        j := j - 1;
      }
      AscendingStarts(before, meta[..], j, meta[i].start);
      order[j] := i;
      at := j;
      InsertedAt(before, order[..n + 1], j, i);
    }

    /** The live slots in arena order (slot_store.c sorts indices, not events). */
    method OrderByStart() returns (order: array<int>, n: nat)
      requires Shape() && |model.slots| == MAX_SLOTS
      requires Describes(arena[..], meta[..], model.slots) && Disjoint(meta[..MAX_SLOTS])
      ensures fresh(order) && n <= order.Length
      ensures Orders(order[..n], MAX_SLOTS, meta[..], model.slots)
    {
      hide Describes, Disjoint;
      order, n := new int[MAX_SLOTS], 0;
      for i := 0 to MAX_SLOTS
        invariant n <= i && meta[..] == old(meta[..])
        invariant Orders(order[..n], i, meta[..], model.slots)
      {
        n := OrderNext(order, n, i);
      }
    }

    method OrderNext(order: array<int>, n: nat, i: nat) returns (n': nat)
      requires n <= i < order.Length && i < |model.slots|
      requires Describes(arena[..], meta[..], model.slots) && Disjoint(meta[..|model.slots|])
      requires Orders(order[..n], i, meta[..], model.slots)
      modifies order
      ensures n' <= i + 1 && Orders(order[..n'], i + 1, meta[..], model.slots)
    {
      hide Ascending, CountSum, Disjoint;
      ghost var done, ms := order[..n], meta[..];
      if meta[i].count == 0 {
        OrdersSkip(done, i, ms, model.slots, arena[..]);
        return n;
      }
      ghost var at := InsertByStart(order, n, i);
      OrdersGrow(done, i, ms, model.slots, arena[..], at);
      n' := n + 1;
    }

    /**
     * arena_repack: packs every live region towards offset 0 and reports the first free offset,
     * or moves nothing while a slot plays. The events of every slot stay what they were.
     */
    method Repack() returns (ok: bool, free: nat)
      requires Valid()
      modifies arena, meta
      ensures Valid() && ok == (playingSlot == -1)
      ensures ok ==> free == Total(model.slots) && Packed(old(meta[..]), meta[..], MAX_SLOTS, free)
      ensures !ok ==> arena[..] == old(arena[..]) && meta[..] == old(meta[..])
    {
      if playingSlot != -1 {
        return false, 0;
      }
      var order, n := OrderByStart();
      SizesFit();
      ghost var ms0 := meta[..];
      PackingStart(order[..n], ms0, model.slots);
      free := PackAll(order, n);
      ok := true;
      PackingDone(order[..n], free, ms0, meta[..], model.slots);
    }

    method PackAll(order: array<int>, n: nat) returns (w: nat)
      requires n <= order.Length && arena.Length <= 65535
      requires Describes(arena[..], meta[..], model.slots) && Packing(order[..n], 0, 0, meta[..], model.slots)
      modifies arena, meta
      ensures Describes(arena[..], meta[..], model.slots) && Packing(order[..n], n, w, meta[..], model.slots)
      ensures SameCounts(old(meta[..]), meta[..])
    {
      w := 0;
      for k := 0 to n
        invariant order[..n] == old(order[..n])
        invariant Describes(arena[..], meta[..], model.slots) && Packing(order[..n], k, w, meta[..], model.slots)
        invariant SameCounts(old(meta[..]), meta[..])
      {
        w := PackNext(order[k], w, order[..n], k);
      }
    }

    method PackNext(i: int, w: nat, ghost order: seq<int>, ghost k: nat) returns (next: nat)
      requires arena.Length <= 65535 && k < |order| && order[k] == i
      requires Describes(arena[..], meta[..], model.slots) && Packing(order, k, w, meta[..], model.slots)
      modifies arena, meta
      ensures Describes(arena[..], meta[..], model.slots) && Packing(order, k + 1, next, meta[..], model.slots)
      ensures SameCounts(old(meta[..]), meta[..])
    {
      hide Packing, CanSlide;
      PackingAdvance(order, k, w, meta[..], model.slots, arena[..]);
      next := (w + meta[i].count) % 0x1_0000;
      Slide(i, w);
    }

    /** Move slot `i`'s region down to `w`, unless it is already there. */
    method Slide(i: int, w: nat)
      requires 0 <= i < |model.slots| && Describes(arena[..], meta[..], model.slots)
      requires CanSlide(i, w, meta[..], model.slots)
      modifies arena, meta
      ensures meta[..] == old(meta[..])[i := Meta(w, old(meta[i]).count)]
      ensures Describes(arena[..], meta[..], model.slots)
    {
      ghost var ms, events := meta[..], arena[..];
      var m := meta[i];
      if m.start != w {
        MoveDown(w, m.start, m.count);
        meta[i] := Meta(w, m.count);
        DescribesMove(events, arena[..], ms, model.slots, i, w);
      }
    }

    // ---- queries ----------------------------------------------------------------

    method IsEmpty(idx: int) returns (empty: bool)
      requires Valid()
      ensures empty == model.IsEmpty(idx)
    {
      empty := true;
      if IsSlot(idx) {
        empty := meta[idx].count == 0 || pendingDelete[idx];
      }
    }

    /** The window onto a slot's events; empty for a slot that reads empty. */
    method Get(idx: int) returns (view: seq<Event>)
      requires Valid()
      ensures view == model.View(idx)
    {
      var empty := IsEmpty(idx);
      view := if empty then [] else arena[meta[idx].start..meta[idx].End()];
    }

    /** slot_store_count: the classes are contiguous, flash slots first. */
    method CountFilled(cls: SlotClass) returns (n: nat)
      requires Valid()
      ensures |model.slots| == MAX_SLOTS && n == |FilledOf(model, cls)|
    {
      var lo := if cls == RamSlots then NVS_SLOTS else 0;
      var hi := if cls == NvsSlots then NVS_SLOTS else MAX_SLOTS;
      SizesFit();
      n := 0;
      for i := lo to hi
        invariant n == |FilledSlots(model, lo, i)|
      {
        var empty := IsEmpty(i);
        FilledStep(model, lo, i);
        if !empty {
          n := n + 1;
        }
      }
      assert FilledOf(model, cls) == FilledSlots(model, lo, hi);
    }

    // ---- persistence helpers ------------------------------------------------------

    method NvsSave(idx: int) returns (rc: DmResult)
      requires Shape() && MirrorsModel() && |model.slots| == MAX_SLOTS && IsSlot(idx)
      modifies sink`queue
      ensures (sink.queue, rc) == StoreSpec.NvsSave(model, old(sink.queue), idx)
    {
      if !IsNvs(idx) {
        return Ok;
      }
      var m := meta[idx];
      rc := sink.SinkSave(idx, arena[m.start..m.End()], generation[idx]);
    }

    method NvsDelete(idx: int) returns (rc: DmResult)
      requires Shape() && MirrorsModel() && |model.slots| == MAX_SLOTS && IsSlot(idx)
      modifies sink`queue
      ensures (sink.queue, rc) == StoreSpec.NvsDelete(model, old(sink.queue), idx)
    {
      if !IsNvs(idx) {
        return Ok;
      }
      rc := sink.SinkDelete(idx, generation[idx]);
    }

    // ---- move ------------------------------------------------------------------------

    method Move(src: int, dst: int) returns (rc: DmResult)
      requires Valid()
      modifies this`model, meta, pendingDelete, generation, sink`queue
      ensures Valid()
      ensures StoreSpec.Move(old(model), old(sink.queue), src, dst) == Outcome(model, sink.queue, rc)
    {
      var srcEmpty := IsEmpty(src);
      if !IsSlot(src) || !IsSlot(dst) || srcEmpty {
        return RejectedEmpty;
      }
      var dstEmpty := IsEmpty(dst);
      if !dstEmpty {
        return RejectedOccupied;
      }
      if IsNvs(dst) && meta[src].count > MAX_EVENTS_NVS {
        return RejectedTooLarge;
      }
      rc := MoveDescriptor(src, dst);
    }

    /**
     * The two persistent writes of a move. Between OpenAlias and FreeMoved two descriptors name
     * one region; no allocation happens in that window.
     */
    method MoveDescriptor(src: int, dst: int) returns (rc: DmResult)
      requires Valid() && IsSlot(dst) && !model.IsEmpty(src) && model.IsEmpty(dst)
      requires IsNvs(dst) ==> |model.slots[src].events| <= MAX_EVENTS_NVS
      modifies this`model, meta, pendingDelete, generation, sink`queue
      ensures Valid()
      ensures StoreSpec.Move(old(model), old(sink.queue), src, dst) == Outcome(model, sink.queue, rc)
    {
      hide Describes, Disjoint, Total;
      ghost var s0, ms := model, meta[..];
      OpenAlias(src, dst);
      rc := NvsSave(dst);
      if rc != Ok {
        CloseAlias(src, dst, s0);
        assert Disjoint(meta[..MAX_SLOTS]) by {
          DisjointPut(ms, MAX_SLOTS, dst, Meta(ms[src].start, 0));
          assert meta[..] == ms[dst := Meta(ms[src].start, 0)];
        }
        return;
      }
      FreeMoved(src, dst, s0);
      assert Disjoint(meta[..MAX_SLOTS]) by {
        DisjointMove(ms, MAX_SLOTS, src, dst);
      }
      rc := NvsDelete(src);
    }

    method OpenAlias(src: int, dst: int)
      requires Shape() && MirrorsModel() && |model.slots| == MAX_SLOTS && IsSlot(src) && IsSlot(dst)
      modifies this`model, meta, pendingDelete, generation
      ensures Shape() && MirrorsModel()
      ensures meta[..] == old(meta[..])[dst := old(meta[src])]
      ensures model == old(model.With(dst, Slot(model.slots[src].events, false, model.slots[dst].gen + 1)))
    {
      ghost var slot := Slot(model.slots[src].events, false, model.slots[dst].gen + 1);
      MirrorsPut(arena[..], meta[..], pendingDelete[..], generation[..], model.slots, dst, meta[src], slot);
      pendingDelete[dst] := false;
      generation[dst] := generation[dst] + 1;
      meta[dst] := meta[src];
      model := model.With(dst, slot);
    }

    method CloseAlias(src: int, dst: int, ghost s0: Store)
      requires Shape() && MirrorsModel() && s0.Valid() && IsSlot(src) && IsSlot(dst) && s0.IsEmpty(dst)
      requires model == s0.With(dst, Slot(s0.slots[src].events, false, s0.slots[dst].gen + 1))
      modifies this`model, meta, generation
      ensures Shape() && MirrorsModel() && model == RolledBack(s0, dst) && model.Valid()
      ensures meta[..] == old(meta[..])[dst := Meta(old(meta[dst]).start, 0)]
    {
      ghost var slot := Slot([], false, s0.slots[dst].gen + 2);
      MirrorsPut(arena[..], meta[..], pendingDelete[..], generation[..], model.slots,
                 dst, Meta(meta[dst].start, 0), slot);
      generation[dst] := generation[dst] + 1;
      FreeSlot(dst);
      model := model.With(dst, slot);
      WithKeepsValid(s0, dst, slot);
    }

    method FreeMoved(src: int, dst: int, ghost s0: Store)
      requires Shape() && MirrorsModel() && s0.Valid() && !s0.IsEmpty(src) && IsSlot(dst) && s0.IsEmpty(dst)
      requires IsNvs(dst) ==> |s0.slots[src].events| <= MAX_EVENTS_NVS
      requires model == s0.With(dst, Slot(s0.slots[src].events, false, s0.slots[dst].gen + 1))
      modifies this`model, meta, pendingDelete, generation
      ensures Shape() && MirrorsModel() && model == Relocated(s0, src, dst) && model.Valid()
      ensures meta[..] == old(meta[..])[src := Meta(old(meta[src]).start, 0)]
    {
      ghost var slot := Slot([], false, s0.slots[src].gen + 1);
      MirrorsPut(arena[..], meta[..], pendingDelete[..], generation[..], model.slots,
                 src, Meta(meta[src].start, 0), slot);
      pendingDelete[src] := false;
      generation[src] := generation[src] + 1;
      FreeSlot(src);
      model := model.With(src, slot);
      RelocatedKeepsValid(s0, src, dst);
    }

    method FreeSlot(idx: int)
      requires 0 <= idx < meta.Length
      modifies meta
      ensures meta[..] == old(meta[..])[idx := Meta(old(meta[idx]).start, 0)]
    {
      meta[idx] := Meta(meta[idx].start, 0);
    }

    /** Enqueue the save of slot `idx` as it is now; a RAM slot has nothing to persist. */
    method Persist(idx: int) returns (rc: DmResult)
      requires Valid()
      modifies sink`queue
      ensures Valid() && StoreSpec.Persist(model, old(sink.queue), idx) == Outcome(model, sink.queue, rc)
    {
      if !IsSlot(idx) {
        return RejectedEmpty;
      }
      rc := NvsSave(idx);
    }

    // ---- delete -----------------------------------------------------------------------

    method SetLeaving(idx: int, leaving: bool)
      requires Valid() && IsSlot(idx)
      modifies this`model, pendingDelete
      ensures Valid() && model == old(model).With(idx, old(model).slots[idx].(pending := leaving))
    {
      WithKeepsValid(model, idx, model.slots[idx].(pending := leaving));
      pendingDelete[idx] := leaving;
      model := model.With(idx, model.slots[idx].(pending := leaving));
    }

    /** Empty slot `idx`: its bytes stay in the arena until the next compaction. */
    method Vacate(idx: int)
      requires Valid() && IsSlot(idx)
      modifies this`model, meta
      ensures Valid() && model == old(model).With(idx, old(model).slots[idx].(events := []))
    {
      ghost var slot, m := model.slots[idx].(events := []), Meta(meta[idx].start, 0);
      WithKeepsValid(model, idx, slot);
      DisjointPut(meta[..], MAX_SLOTS, idx, m);
      MirrorsPut(arena[..], meta[..], pendingDelete[..], generation[..], model.slots, idx, m, slot);
      FreeSlot(idx);
      model := model.With(idx, slot);
      assert generation[..][idx := slot.gen] == generation[..];
      assert pendingDelete[..][idx := slot.pending] == pendingDelete[..];
    }

    method Delete(idx: int) returns (rc: DmResult)
      requires Valid()
      modifies this`model, meta, pendingDelete, sink`queue
      ensures Valid()
      ensures StoreSpec.DeleteSlot(old(model), old(sink.queue), idx) == Outcome(model, sink.queue, rc)
    {
      hide Describes, Disjoint, Total;
      var empty := IsEmpty(idx);
      if empty {
        return RejectedEmpty;
      }
      if !IsNvs(idx) {
        Vacate(idx);
        return Ok;
      }
      SetLeaving(idx, true);
      rc := NvsDelete(idx);
      if rc != Ok {
        SetLeaving(idx, false);
        assert model.slots == old(model.slots);
        return;
      }
      rc := DeleteDeferred;
    }

    method CompleteDelete(idx: int, gen: nat, ok: bool) returns (rc: DmResult)
      requires Valid()
      modifies this`model, meta, pendingDelete
      ensures Valid()
      ensures StoreSpec.CompleteDelete(old(model), idx, gen, ok) == (model, rc)
    {
      if !IsSlot(idx) || !pendingDelete[idx] || generation[idx] != gen {
        return DeleteStale;
      }
      if !ok {
        SetLeaving(idx, false);
        return DeleteFailed;
      }
      if playingSlot != idx {
        Vacate(idx);
      }
      SetLeaving(idx, false);
      assert playingSlot != idx ==> model.slots == old(model).slots[idx := Slot([], false, gen)];
      rc := Ok;
    }

    // ---- draft -------------------------------------------------------------------------

    method DraftReset()
      requires Valid()
      modifies this`draftCount, this`model
      ensures Valid() && model == StoreSpec.DraftReset(old(model))
    {
      draftCount := 0;
      model := model.(draft := []);
    }

    method DraftAppend(e: Event) returns (ok: bool)
      requires Valid()
      modifies this`draftCount, this`model, draft
      ensures Valid() && StoreSpec.DraftAppend(old(model), e) == (model, ok)
    {
      if draftCount >= MAX_EVENTS {
        return false;
      }
      WriteDraft([e]);
      ok := true;
    }

    /** Copy `events` behind the draft's last event. */
    method WriteDraft(events: seq<Event>)
      requires Valid() && draftCount + |events| <= MAX_EVENTS
      modifies this`draftCount, this`model, draft
      ensures Valid() && model == old(model).(draft := old(model).draft + events)
    {
      CopyIn(draft, draftCount, events);
      draftCount := draftCount + |events|;
      model := model.(draft := model.draft + events);
    }

    method DraftChain(src: int) returns (rc: DmResult)
      requires Valid()
      modifies this`draftCount, this`model, draft
      ensures Valid() && StoreSpec.DraftChain(old(model), src) == (model, rc)
    {
      var empty := IsEmpty(src);
      if empty {
        return RejectedEmpty;
      }
      var m := meta[src];
      if m.count > MAX_EVENTS - draftCount {
        return RejectedFull;
      }
      WriteDraft(arena[m.start..m.End()]);
      rc := Ok;
    }

    /** memcpy into a buffer of events. */
    static method CopyIn(buffer: array<Event>, at: nat, events: seq<Event>)
      requires at + |events| <= buffer.Length
      modifies buffer
      ensures buffer[..] == old(buffer[..at]) + events + old(buffer[at + |events|..])
    {
      ghost var before := buffer[..];
      for k := 0 to |events|
        invariant buffer[..] == before[..at] + events[..k] + before[at + k..]
      {
        buffer[at + k] := events[k];
      }
    }

    /** Bump-allocate `events` at `used`, above every live region, and give them to slot `idx`. */
    method Place(idx: int, events: seq<Event>, used: nat)
      requires Shape() && MirrorsModel() && |model.slots| == MAX_SLOTS && IsSlot(idx)
      requires used + |events| <= arena.Length && Disjoint(meta[..MAX_SLOTS])
      requires forall j :: IsSlot(j) && Live(meta[j]) ==> meta[j].End() <= used
      modifies this`model, arena, meta, pendingDelete
      ensures Shape() && MirrorsModel() && Disjoint(meta[..MAX_SLOTS])
      ensures model == old(model).With(idx, Slot(events, false, old(model).slots[idx].gen))
    {
      ghost var slot, m, before := Slot(events, false, model.slots[idx].gen), Meta(used, |events|), arena[..];
      CopyIn(arena, used, events);
      MirrorsAbove(before, arena[..], meta[..], pendingDelete[..], generation[..], model.slots, used);
      MirrorsPut(arena[..], meta[..], pendingDelete[..], generation[..], model.slots, idx, m, slot);
      DisjointPut(meta[..], MAX_SLOTS, idx, m);
      pendingDelete[idx] := false;
      meta[idx] := Meta(used, |events|);
      model := model.With(idx, slot);
      assert generation[..][idx := slot.gen] == generation[..];
    }

    /** Compact, then check that `n` more events fit above everything live. */
    method Reserve(n: nat) returns (ok: bool, used: nat)
      requires Valid()
      modifies arena, meta
      ensures Valid() && ok == (playingSlot == -1 && n + Total(model.slots) <= ARENA_EVENTS)
      ensures ok ==> used == Total(model.slots) && forall j :: IsSlot(j) && Live(meta[j]) ==> meta[j].End() <= used
    {
      ok, used := Repack();
      if ok && n > ARENA_EVENTS - used {
        ok := false;
      }
    }

    method DraftCommit(dst: int) returns (rc: DmResult)
      requires Valid()
      modifies this`model, arena, meta, pendingDelete, generation
      ensures Valid()
      ensures StoreSpec.DraftCommit(old(model), dst) == (model, rc)
    {
      hide Mirrors, Disjoint, Total;
      var empty := IsEmpty(dst);
      if !IsSlot(dst) || !empty {
        return RejectedOccupied;
      }
      var n := draftCount;
      if IsNvs(dst) && n > MAX_EVENTS_NVS {
        return RejectedTooLarge;
      }
      var ok, used := Reserve(n);
      if !ok {
        return RejectedFull;
      }
      CommitAt(dst, used);
      rc := Ok;
    }

    method CommitAt(dst: int, used: nat)
      requires Valid() && IsSlot(dst) && (IsNvs(dst) ==> draftCount <= MAX_EVENTS_NVS)
      requires draftCount + used <= ARENA_EVENTS && used == Total(model.slots)
      requires forall j :: IsSlot(j) && Live(meta[j]) ==> meta[j].End() <= used
      modifies this`model, arena, meta, pendingDelete, generation
      ensures Valid()
      ensures model == old(model).With(dst, Slot(old(model).draft, false, old(model).slots[dst].gen + 1))
    {
      hide Disjoint, Describes, Total;
      ghost var s0 := model;
      Place(dst, draft[..draftCount], used);
      BumpGeneration(dst);
      assert model.slots == s0.slots[dst := Slot(s0.draft, false, s0.slots[dst].gen + 1)];
      assert model.Valid() by {
        WithKeepsValid(s0, dst, Slot(s0.draft, false, s0.slots[dst].gen + 1));
      }
    }

    method BumpGeneration(idx: int)
      requires Shape() && MirrorsModel() && |model.slots| == MAX_SLOTS && IsSlot(idx)
      modifies this`model, generation
      ensures Shape() && MirrorsModel()
      ensures model == old(model).With(idx, old(model).slots[idx].(gen := old(model).slots[idx].gen + 1))
    {
      generation[idx] := generation[idx] + 1;
      model := model.With(idx, model.slots[idx].(gen := model.slots[idx].gen + 1));
    }

    // ---- restore surface ----------------------------------------------------------------

    method Load(idx: int, events: seq<Event>) returns (ok: bool)
      requires Valid()
      modifies this`model, arena, meta, pendingDelete
      ensures Valid()
      ensures StoreSpec.Load(old(model), idx, events) == (model, ok)
    {
      hide Mirrors, Disjoint, Total;
      if !IsSlot(idx) || |events| > MAX_EVENTS_NVS {
        return false;
      }
      Vacate(idx);
      var used;
      ok, used := Reserve(|events|);
      if !ok {
        return;
      }
      LoadAt(idx, events, used);
      assert model.slots == old(model).slots[idx := Slot(events, false, old(model).slots[idx].gen)];
    }

    method LoadAt(idx: int, events: seq<Event>, used: nat)
      requires Valid() && IsSlot(idx) && |events| <= MAX_EVENTS_NVS
      requires |events| + used <= ARENA_EVENTS && used == Total(model.slots)
      requires forall j :: IsSlot(j) && Live(meta[j]) ==> meta[j].End() <= used
      modifies this`model, arena, meta, pendingDelete
      ensures Valid()
      ensures model == old(model).With(idx, Slot(events, false, old(model).slots[idx].gen))
    {
      hide Disjoint, Describes, Total;
      ghost var s0 := model;
      Place(idx, events, used);
      assert model.Valid() by {
        WithKeepsValid(s0, idx, Slot(events, false, s0.slots[idx].gen));
      }
    }

    method Reset()
      requires Valid()
      modifies this`model, meta, pendingDelete, generation
      ensures Valid() && model == StoreSpec.Reset(old(model))
    {
      hide Describes, Disjoint, Total;
      for i := 0 to MAX_SLOTS
        invariant Valid() && model.(slots := []) == old(model).(slots := [])
        invariant forall j :: 0 <= j < i ==> model.slots[j] == FREE_SLOT
      {
        Vacate(i);
        SetLeaving(i, false);
        ClearGeneration(i);
      }
    }

    method ClearGeneration(idx: int)
      requires Valid() && IsSlot(idx)
      modifies this`model, generation
      ensures Valid() && model == old(model).With(idx, old(model).slots[idx].(gen := 0))
    {
      WithKeepsValid(model, idx, model.slots[idx].(gen := 0));
      generation[idx] := 0;
      model := model.With(idx, model.slots[idx].(gen := 0));
    }

    // ---- playback ownership ----------------------------------------------------------------

    method MarkPlaying(idx: int)
      requires Valid()
      modifies this`model, this`playingSlot
      ensures Valid() && model == StoreSpec.MarkPlaying(old(model), idx)
    {
      playingSlot := idx;
      model := model.(playing := idx);
    }

    method ClearPlaying()
      requires Valid()
      modifies this`model, this`playingSlot
      ensures Valid() && model == StoreSpec.ClearPlaying(old(model))
    {
      playingSlot := -1;
      model := model.(playing := -1);
    }
  }
}
