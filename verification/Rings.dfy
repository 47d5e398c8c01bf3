/**
 * The two bounded rings of the firmware: the playback ring, whose size is any number, and the
 * feedback ring, whose size is 64 so that its masked indices are the same wrap. One cell stays
 * free, so that equal cursors mean empty.
 */
module Rings {

  /** Advance with a modular wrap (dm_pb_next). */
  function NextIndex(i: nat, cap: nat): (n: nat)
    requires i < cap
    ensures n < cap
  {
    if i + 1 == cap then 0 else i + 1
  }

  /** What lies between the cursors, oldest first. */
  function Held<T>(cells: seq<T>, tail: nat, head: nat): seq<T>
    requires tail < |cells| && head < |cells|
  {
    if tail <= head then cells[tail..head] else cells[tail..] + cells[..head]
  }

  lemma HeldPush<T>(cells: seq<T>, tail: nat, head: nat, x: T)
    requires tail < |cells| && head < |cells| && |Held(cells, tail, head)| + 1 < |cells|
    ensures Held(cells[head := x], tail, NextIndex(head, |cells|)) == Held(cells, tail, head) + [x]
  {
  }

  lemma HeldPop<T>(cells: seq<T>, tail: nat, head: nat)
    requires tail < |cells| && head < |cells| && tail != head
    ensures Held(cells, tail, head) == [cells[tail]] + Held(cells, NextIndex(tail, |cells|), head)
  {
  }

  /**
   * For a ring of 64 cells the masked arithmetic of the feedback pump's byte cursors advances and
   * counts as the modular wrap does; the mask keeps six bits, so the width they are computed in is
   * of no account.
   */
  lemma MaskIsWrap(head: bv8, tail: bv8)
    requires head < 64 && tail < 64
    ensures ((head + 1) & 63) as nat == NextIndex(head as nat, 64)
    ensures
      var h, t := head as nat, tail as nat;
      ((head - tail) & 63) as nat == if h >= t then h - t else 64 - t + h
  {
    MaskedNext(head);
    MaskedDistance(head, tail);
  }

  lemma MaskedNext(head: bv8)
    requires head < 64
    ensures ((head + 1) & 63) as nat == if head == 63 then 0 else head as nat + 1
  {
    assert (head + 1) & 63 == if head == 63 then 0 else head + 1;
  }

  lemma MaskedDistance(head: bv8, tail: bv8)
    requires head < 64 && tail < 64
    ensures
      var h, t := head as nat, tail as nat;
      ((head - tail) & 63) as nat == if tail <= head then h - t else 64 - t + h
  {
    assert (head - tail) & 63 == if tail <= head then head - tail else 64 - tail + head;
  }

  class Ring<T(0)> {
    const cells: array<T>
    var head: nat
    var tail: nat

    ghost predicate Valid()
      reads this
    {
      0 < cells.Length && head < cells.Length && tail < cells.Length
    }

    ghost function Contents(): (s: seq<T>)
      requires Valid()
      reads this, cells
      ensures |s| < cells.Length
    {
      Held(cells[..], tail, head)
    }

    constructor (cap: nat)
      requires 0 < cap
      ensures Valid() && fresh(cells) && cells.Length == cap && Contents() == []
    {
      cells := new T[cap];
      head, tail := 0, 0;
    }

    function Count(): (n: nat)
      requires Valid()
      reads this, cells
      ensures n == |Contents()|
    {
      if head >= tail then head - tail else cells.Length - tail + head
    }

    function Space(): (n: nat)
      requires Valid()
      reads this, cells
      ensures n == cells.Length - 1 - |Contents()|
    {
      cells.Length - 1 - Count()
    }

    function IsEmpty(): (b: bool)
      requires Valid()
      reads this, cells
      ensures b <==> Contents() == []
    {
      head == tail
    }

    /** Never overwrites an unread entry: a full ring refuses. */
    method Push(x: T) returns (ok: bool)
      requires Valid()
      modifies this`head, cells
      ensures Valid() && ok == (|old(Contents())| + 1 < cells.Length)
      ensures Contents() == if ok then old(Contents()) + [x] else old(Contents())
    {
      if Space() == 0 {
        return false;
      }
      HeldPush(cells[..], tail, head, x);
      ghost var before := cells[..];
      cells[head] := x;
      assert cells[..] == before[head := x];
      head := NextIndex(head, cells.Length);
      ok := true;
    }

    method Pop() returns (ok: bool, x: T)
      requires Valid()
      modifies this`tail
      ensures Valid() && ok == (old(Contents()) != [])
      ensures if ok then old(Contents()) == [x] + Contents() else Contents() == old(Contents())
    {
      if IsEmpty() {
        ok, x := false, *;
        return;
      }
      HeldPop(cells[..], tail, head);
      ok, x := true, cells[tail];
      tail := NextIndex(tail, cells.Length);
    }

    method Reset()
      requires Valid()
      modifies this`head, this`tail
      ensures Valid() && Contents() == []
    {
      head, tail := 0, 0;
    }
  }
}
