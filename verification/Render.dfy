/**
 * dm_render.c: one walk over a macro's events that shows printable keys as characters and
 * everything else as tokens, into a sink that may refuse room; the walk then pauses and resumes.
 */
module Render {
  import opened Config
  import opened Keymaps
  import opened Rings

  // ---- what one event shows ---------------------------------------------------------------

  const KEY_PAGE: U16 := 0x07
  const BUTTON_PAGE: U16 := 0x09
  const CONSUMER_PAGE: U16 := 0x0C

  const SHIFT_MASK: bv8 := 0x22
  const NON_SHIFT_MASK: bv8 := 0xDD

  const MOD_BITS: seq<bv8> := [0x01, 0x02, 0x04, 0x08, 0x10, 0x20, 0x40, 0x80]
  const MOD_NAMES: seq<string> := ["LCTL", "LSFT", "LALT", "LGUI", "RCTL", "RSFT", "RALT", "RGUI"]

  predicate IsModifierKey(e: Event) { e.usagePage == KEY_PAGE && 0xE0 <= e.keycode <= 0xE7 }

  function Shifted(mods: bv8): bool { mods & SHIFT_MASK != 0 }

  /** The character a press shows, or '\0' when it needs a token. */
  function Literal(l: Locale, e: Event, mods: bv8): char {
    if e.usagePage != KEY_PAGE || mods & NON_SHIFT_MASK != 0 then '\0' else Printable(l, e.keycode, Shifted(mods))
  }

  function KeyboardName(keycode: int): (name: string)
    ensures 1 <= |name| <= 13
  {
    if IsLetterKey(keycode) then [('A' as int + (keycode - 0x04)) as char]
    else match keycode
      case 0x1E => "1" case 0x1F => "2" case 0x20 => "3" case 0x21 => "4" case 0x22 => "5"
      case 0x23 => "6" case 0x24 => "7" case 0x25 => "8" case 0x26 => "9" case 0x27 => "0"
      case 0x28 => "RET" case 0x29 => "ESC" case 0x2A => "BSPC" case 0x2B => "TAB" case 0x2C => "SPC"
      case 0x2D => "-" case 0x2E => "=" case 0x2F => "[" case 0x30 => "]" case 0x31 => "\\"
      case 0x33 => ";" case 0x34 => "'" case 0x35 => "`" case 0x36 => "," case 0x37 => "." case 0x38 => "/"
      case 0x39 => "CAPS"
      case 0x3A => "F1" case 0x3B => "F2" case 0x3C => "F3" case 0x3D => "F4" case 0x3E => "F5" case 0x3F => "F6"
      case 0x40 => "F7" case 0x41 => "F8" case 0x42 => "F9" case 0x43 => "F10" case 0x44 => "F11" case 0x45 => "F12"
      case 0x46 => "PSCRN" case 0x47 => "SLCK" case 0x48 => "PAUSE" case 0x49 => "INS" case 0x4A => "HOME"
      case 0x4B => "PGUP" case 0x4C => "DEL" case 0x4D => "END" case 0x4E => "PGDN"
      case 0x4F => "RIGHT" case 0x50 => "LEFT" case 0x51 => "DOWN" case 0x52 => "UP"
      case _ => "KEY"
  }

  function ButtonName(keycode: int): (name: string)
    ensures 1 <= |name| <= 13
  {
    match keycode
    case 0x01 => "MOUSE_LEFT"
    case 0x02 => "MOUSE_RIGHT"
    case 0x03 => "MOUSE_MIDDLE"
    case 0x04 => "MOUSE_BACK"
    case 0x05 => "MOUSE_FORWARD"
    case _ => "MOUSE"
  }

  function ActionName(page: U16, keycode: U16): (name: string)
    ensures 1 <= |name| <= 13
  {
    if page == KEY_PAGE then KeyboardName(keycode)
    else if page == BUTTON_PAGE then ButtonName(keycode)
    else if page == CONSUMER_PAGE then "MEDIA"
    else "ACTION"
  }

  function Separator(l: Locale): char { if IsPlain(l) then ' ' else '+' }

  function Opening(l: Locale): string { if IsPlain(l) then "" else "<" }

  function Closing(l: Locale): string { if IsPlain(l) then "" else ">" }

  predicate HasMod(mods: bv8, i: nat)
    requires i < 8
  {
    mods & MOD_BITS[i] != 0
  }

  function WithMod(mods: bv8, i: nat): bv8
    requires i < 8
  {
    mods | MOD_BITS[i]
  }

  function WithoutMod(mods: bv8, i: nat): bv8
    requires i < 8
  {
    mods & !MOD_BITS[i]
  }

  /** The held modifiers from bit `i` up, each followed by a separator. */
  function ModText(mods: bv8, i: nat, sep: char, first: bool): string
    decreases 8 - i
  {
    if i >= 8 then (if first then "" else [sep])
    else if HasMod(mods, i) then (if first then "" else [sep]) + MOD_NAMES[i] + ModText(mods, i + 1, sep, false)
    else ModText(mods, i + 1, sep, first)
  }

  function TokenText(l: Locale, mods: bv8, page: U16, keycode: U16): string {
    Opening(l) + ModText(mods, 0, Separator(l), true) + ActionName(page, keycode) + Closing(l)
  }

  /** Length of the modifier part, counted the way token_size adds it up. */
  function ModSize(mods: bv8, i: nat, first: bool): nat
    decreases 8 - i
  {
    if i >= 8 then (if first then 0 else 1)
    else if HasMod(mods, i) then (if first then 0 else 1) + |MOD_NAMES[i]| + ModSize(mods, i + 1, false)
    else ModSize(mods, i + 1, first)
  }

  function TokenSize(l: Locale, mods: bv8, page: U16, keycode: U16): nat {
    (if IsPlain(l) then 0 else 2) + ModSize(mods, 0, true) + |ActionName(page, keycode)|
  }

  lemma {:induction false} ModSizeIsLength(mods: bv8, i: nat, sep: char, first: bool)
    requires i <= 8
    ensures ModSize(mods, i, first) == |ModText(mods, i, sep, first)| <= 5 * (8 - i) + if first then 0 else 1
    decreases 8 - i
  {
    hide HasMod;
    if i < 8 {
      ModSizeIsLength(mods, i + 1, sep, false);
      ModSizeIsLength(mods, i + 1, sep, first);
    }
  }

  /** The room requested for a token is exactly what it emits, at most 55 characters. */
  lemma TokenSizeIsLength(l: Locale, mods: bv8, page: U16, keycode: U16)
    ensures TokenSize(l, mods, page, keycode) == |TokenText(l, mods, page, keycode)| <= 55
  {
    ModSizeIsLength(mods, 0, Separator(l), true);
  }

  // ---- delay tokens -----------------------------------------------------------------------

  function DelayDigits(ms: nat): nat {
    if ms / 10 == 0 then 1 else 1 + DelayDigits(ms / 10)
  }

  /** The digits of `ms`; none at all for 0. */
  function Decimal(ms: nat): string {
    if ms == 0 then "" else Decimal(ms / 10) + [('0' as int + ms % 10) as char]
  }

  function DelayText(l: Locale, ms: U16): string { Opening(l) + "D" + Decimal(ms) + Closing(l) }

  function DelaySize(l: Locale, ms: U16): nat { 1 + DelayDigits(ms) + if IsPlain(l) then 0 else 2 }

  lemma {:induction false} DigitsFit(ms: nat, k: nat, bound: nat)
    requires 1 <= k <= 5 && ms < bound && bound == [1, 10, 100, 1000, 10000, 100000][k]
    ensures |Decimal(ms)| + (if ms == 0 then 1 else 0) == DelayDigits(ms) <= k
    decreases k
  {
    if ms / 10 != 0 {
      DigitsFit(ms / 10, k - 1, bound / 10);
    }
  }

  /** The room requested for a delay is what it emits, but for the 0 ms marker, which emits no digit. */
  lemma DelaySizeIsLength(l: Locale, ms: U16)
    ensures |DelayText(l, ms)| == DelaySize(l, ms) <==> ms != 0
    ensures |DelayText(l, ms)| <= DelaySize(l, ms) <= 8
  {
    DigitsFit(ms, 5, 100000);
  }

  // ---- the walk ---------------------------------------------------------------------------

  datatype Cursor = Cursor(idx: nat, activeMods: bv8)

  const START: Cursor := Cursor(0, 0)

  function HeldAfter(e: Event, held: bv8): bv8 {
    if IsDelay(e) || !IsModifierKey(e) then held
    else if e.pressed != 0 then WithMod(held, e.keycode - 0xE0)
    else WithoutMod(held, e.keycode - 0xE0)
  }

  /** Modifiers in force for an event: those held, and those it carries. */
  function AllMods(e: Event, held: bv8): bv8 { held | e.implicitMods | e.explicitMods }

  /** What an event shows while `held` modifiers are down. */
  function Piece(l: Locale, e: Event, held: bv8): string {
    var mods := AllMods(e, held);
    if IsDelay(e) then DelayText(l, e.keycode)
    else if IsModifierKey(e) || e.pressed == 0 then ""
    else if Literal(l, e, mods) != '\0' then [Literal(l, e, mods)]
    else TokenText(l, mods, e.usagePage, e.keycode)
  }

  /** The room the walk asks for before showing an event. */
  function Request(l: Locale, e: Event, held: bv8): (n: nat)
    ensures |Piece(l, e, held)| <= n <= 55
    ensures n == |Piece(l, e, held)| <==> !(IsDelay(e) && e.keycode == 0)
  {
    var mods := AllMods(e, held);
    if IsDelay(e) then
      DelaySizeIsLength(l, e.keycode);
      DelaySize(l, e.keycode)
    else if IsModifierKey(e) || e.pressed == 0 then 0
    else if Literal(l, e, mods) != '\0' then 1
    else
      TokenSizeIsLength(l, mods, e.usagePage, e.keycode);
      TokenSize(l, mods, e.usagePage, e.keycode)
  }

  function Advance(e: Event, cur: Cursor): Cursor { Cursor(cur.idx + 1, HeldAfter(e, cur.activeMods)) }

  /** All that is still to be shown from a cursor on: the one-shot rendering. */
  function Rest(l: Locale, events: seq<Event>, cur: Cursor): string
    decreases |events| - cur.idx
  {
    if cur.idx >= |events| then ""
    else
      Piece(l, events[cur.idx], cur.activeMods) + Rest(l, events, Advance(events[cur.idx], cur))
  }

  function Rendered(l: Locale, events: seq<Event>): string { Rest(l, events, START) }

  datatype Walked = Walked(done: bool, cur: Cursor, text: string)

  /** One call of the renderer into a sink with room for `space` more characters. */
  function Walk(l: Locale, events: seq<Event>, cur: Cursor, space: nat): Walked
    decreases |events| - cur.idx
  {
    if cur.idx >= |events| then Walked(true, cur, "")
    else
      var e := events[cur.idx];
      if Request(l, e, cur.activeMods) > space then Walked(false, cur, "")
      else
        var piece := Piece(l, e, cur.activeMods);
        var rest := Walk(l, events, Advance(e, cur), space - |piece|);
        rest.(text := piece + rest.text)
  }

  /** Nothing is lost or repeated at a pause, and a pause happens only where a unit does not fit. */
  lemma {:induction false} WalkConserves(l: Locale, events: seq<Event>, cur: Cursor, space: nat)
    ensures
      var w := Walk(l, events, cur, space);
      && w.text + Rest(l, events, w.cur) == Rest(l, events, cur)
      && |w.text| <= space && cur.idx <= w.cur.idx
      && (w.done <==> w.cur.idx >= |events|)
      && (!w.done ==> Request(l, events[w.cur.idx], w.cur.activeMods) > space - |w.text|)
    decreases |events| - cur.idx
  {
    hide Piece, Request, HeldAfter, Walk, Rest;
    WalkUnfolds(l, events, cur, space);
    if cur.idx < |events| && Request(l, events[cur.idx], cur.activeMods) <= space {
      var e := events[cur.idx];
      var piece := Piece(l, e, cur.activeMods);
      WalkConserves(l, events, Advance(e, cur), space - |piece|);
      var rest := Walk(l, events, Advance(e, cur), space - |piece|);
      assert (piece + rest.text) + Rest(l, events, rest.cur) == piece + (rest.text + Rest(l, events, rest.cur));
    }
  }

  /** One event of a call, and of the one-shot rendering. */
  lemma WalkUnfolds(l: Locale, events: seq<Event>, cur: Cursor, space: nat)
    ensures
      if cur.idx >= |events| then Walk(l, events, cur, space) == Walked(true, cur, "") && Rest(l, events, cur) == ""
      else
        var e := events[cur.idx];
        var piece := Piece(l, e, cur.activeMods);
        && Rest(l, events, cur) == piece + Rest(l, events, Advance(e, cur))
        && (if Request(l, e, cur.activeMods) > space then Walk(l, events, cur, space) == Walked(false, cur, "")
            else
              var rest := Walk(l, events, Advance(e, cur), space - |piece|);
              Walk(l, events, cur, space) == rest.(text := piece + rest.text))
  {
    hide Piece, Request, HeldAfter;
  }

  /** With room for the largest unit a call always moves on. */
  lemma WalkProgresses(l: Locale, events: seq<Event>, cur: Cursor, space: nat)
    requires space >= 55
    ensures var w := Walk(l, events, cur, space); w.done || w.cur.idx > cur.idx
  {
    hide Piece, Request, HeldAfter;
    if cur.idx < |events| {
      var e := events[cur.idx];
      assert Request(l, e, cur.activeMods) <= space;
      WalkConserves(l, events, Advance(e, cur), space - |Piece(l, e, cur.activeMods)|);
    }
  }

  /** The cursor an uninterrupted walk has when it reaches event `k`. */
  function CursorAt(events: seq<Event>, k: nat): Cursor
    requires k <= |events|
  {
    if k == 0 then START else Advance(events[k - 1], CursorAt(events, k - 1))
  }

  lemma {:induction false} CursorAtIndex(events: seq<Event>, k: nat)
    requires k <= |events|
    ensures CursorAt(events, k).idx == k
  {
    if k > 0 {
      CursorAtIndex(events, k - 1);
    }
  }

  /** A pause leaves the modifier state an uninterrupted walk would have there. */
  lemma {:induction false} WalkCarriesModifiers(l: Locale, events: seq<Event>, k: nat, space: nat)
    requires k <= |events|
    ensures
      var w := Walk(l, events, CursorAt(events, k), space);
      w.cur.idx <= |events| && w.cur == CursorAt(events, w.cur.idx)
    decreases |events| - k
  {
    hide Piece, Request, HeldAfter;
    CursorAtIndex(events, k);
    if k < |events| {
      var cur := CursorAt(events, k);
      if Request(l, events[k], cur.activeMods) <= space {
        assert Advance(events[k], cur) == CursorAt(events, k + 1);
        WalkCarriesModifiers(l, events, k + 1, space - |Piece(l, events[k], cur.activeMods)|);
      }
    }
  }

  /** Modifier `i` is down before event `k`: the last event of its key so far is a press. */
  predicate Down(events: seq<Event>, k: nat, i: nat)
    requires k <= |events|
  {
    k > 0 &&
    if IsModifierKey(events[k - 1]) && events[k - 1].keycode == 0xE0 + i then events[k - 1].pressed != 0
    else Down(events, k - 1, i)
  }

  lemma BitSet(held: bv8, i: nat, j: nat)
    requires i < 8 && j < 8
    ensures HasMod(WithMod(held, j), i) <==> i == j || HasMod(held, i)
  {
  }

  lemma BitCleared(held: bv8, i: nat, j: nat)
    requires i < 8 && j < 8
    ensures HasMod(WithoutMod(held, j), i) <==> i != j && HasMod(held, i)
  {
  }

  lemma HeldAfterBit(e: Event, held: bv8, i: nat)
    requires i < 8
    ensures HasMod(HeldAfter(e, held), i) <==>
      if IsModifierKey(e) && e.keycode == 0xE0 + i then e.pressed != 0 else HasMod(held, i)
  {
    hide HasMod, WithMod, WithoutMod;
    if IsModifierKey(e) {
      BitSet(held, i, e.keycode - 0xE0);
      BitCleared(held, i, e.keycode - 0xE0);
    }
  }

  /** The modifier state of a walk is what is physically held: bit by bit, the keys that are down. */
  lemma {:induction false} HeldIsDown(events: seq<Event>, k: nat, i: nat)
    requires k <= |events| && i < 8
    ensures HasMod(CursorAt(events, k).activeMods, i) <==> Down(events, k, i)
  {
    hide HasMod, HeldAfter, IsModifierKey;
    if k == 0 {
      NothingHeld(i);
    } else {
      HeldIsDown(events, k - 1, i);
      HeldAfterBit(events[k - 1], CursorAt(events, k - 1).activeMods, i);
    }
  }

  lemma NothingHeld(i: nat)
    requires i < 8
    ensures !HasMod(0, i)
  {
  }

  /** Calls with one cursor into sinks of the given rooms, outputs joined. */
  function Resume(l: Locale, events: seq<Event>, cur: Cursor, spaces: seq<nat>): Walked
    decreases |spaces|
  {
    if spaces == [] then Walked(cur.idx >= |events|, cur, "")
    else
      var w := Walk(l, events, cur, spaces[0]);
      var rest := Resume(l, events, w.cur, spaces[1..]);
      rest.(text := w.text + rest.text)
  }

  /** Whatever the pauses, the joined output plus what is left is the one-shot output. */
  lemma {:induction false} ResumeConserves(l: Locale, events: seq<Event>, cur: Cursor, spaces: seq<nat>)
    ensures
      var w := Resume(l, events, cur, spaces);
      && w.text + Rest(l, events, w.cur) == Rest(l, events, cur)
      && (w.done <==> w.cur.idx >= |events|)
    decreases |spaces|
  {
    hide Walk, Rest;
    if spaces != [] {
      WalkConserves(l, events, cur, spaces[0]);
      ResumeConserves(l, events, Walk(l, events, cur, spaces[0]).cur, spaces[1..]);
    }
  }

  /**
   * Resumable rendering is one-shot rendering: once a resumed walk reports completion, its pieces
   * join to the whole rendering; and it does complete after as many resumptions as there are events
   * when every sink has room for one unit.
   */
  lemma {:induction false} ResumableIsOneShot(l: Locale, events: seq<Event>, spaces: seq<nat>)
    ensures Resume(l, events, START, spaces).done ==> Resume(l, events, START, spaces).text == Rendered(l, events)
    ensures
      |spaces| >= |events| && (forall k :: 0 <= k < |spaces| ==> spaces[k] >= 55) ==>
        Resume(l, events, START, spaces).done
  {
    hide Walk, Piece;
    ResumeConserves(l, events, START, spaces);
    if forall k :: 0 <= k < |spaces| ==> spaces[k] >= 55 {
      ResumeProgresses(l, events, START, spaces);
    }
  }

  lemma {:induction false} ResumeProgresses(l: Locale, events: seq<Event>, cur: Cursor, spaces: seq<nat>)
    requires forall k :: 0 <= k < |spaces| ==> spaces[k] >= 55
    ensures var w := Resume(l, events, cur, spaces); w.done || w.cur.idx >= cur.idx + |spaces|
    decreases |spaces|
  {
    hide Walk, Rest;
    if spaces != [] {
      WalkProgresses(l, events, cur, spaces[0]);
      WalkConserves(l, events, cur, spaces[0]);
      ResumeProgresses(l, events, Walk(l, events, cur, spaces[0]).cur, spaces[1..]);
      ResumeConserves(l, events, Walk(l, events, cur, spaces[0]).cur, spaces[1..]);
      ResumeMonotone(l, events, Walk(l, events, cur, spaces[0]).cur, spaces[1..]);
    }
  }

  lemma {:induction false} ResumeMonotone(l: Locale, events: seq<Event>, cur: Cursor, spaces: seq<nat>)
    ensures Resume(l, events, cur, spaces).cur.idx >= cur.idx
    decreases |spaces|
  {
    hide Walk, Rest;
    if spaces != [] {
      WalkConserves(l, events, cur, spaces[0]);
      ResumeMonotone(l, events, Walk(l, events, cur, spaces[0]).cur, spaces[1..]);
    }
  }

  // ---- the sinks and the emitting code -------------------------------------------------------

  /** Where characters go: a NUL-reserving buffer, or the keystroke ring of the feedback pump. */
  datatype Target =
    | ToBuffer(buf: array<char>)
    | ToRing(ring: Ring<Keystroke>, locale: Locale)

  class CharSink {
    const target: Target
    var pos: nat                        // characters written, for a buffer
    ghost var out: string               // characters accepted so far
    ghost const base: seq<Keystroke>    // what the ring held at first

    ghost function Repr(): set<object> {
      match target
      case ToBuffer(buf) => {this, buf}
      case ToRing(ring, _) => {this, ring, ring.cells}
    }

    ghost predicate Valid()
      reads Repr()
    {
      match target
      case ToBuffer(buf) => pos < buf.Length && buf[..pos] == out
      case ToRing(ring, locale) => ring.Valid() && ring.Contents() == base + Typed(locale, out)
    }

    constructor Buffer(buf: array<char>)
      requires buf.Length > 0
      ensures Valid() && out == "" && target == ToBuffer(buf) && Space() == buf.Length - 1
    {
      target, pos, out, base := ToBuffer(buf), 0, "", [];
    }

    constructor OverRing(ring: Ring<Keystroke>, locale: Locale)
      requires ring.Valid()
      ensures Valid() && out == "" && target == ToRing(ring, locale)
      ensures base == ring.Contents() && Space() == ring.Space()
    {
      target, pos, out, base := ToRing(ring, locale), 0, "", ring.Contents();
    }

    /** Characters the sink still takes. */
    function Space(): nat
      requires Valid()
      reads Repr()
    {
      match target
      case ToBuffer(buf) => buf.Length - 1 - pos
      case ToRing(ring, _) => ring.Space()
    }

    predicate SpaceFor(n: nat)
      requires Valid()
      reads Repr()
    {
      Space() >= n
    }

    /** Append one character; a full sink drops it. */
    method EmitChar(c: char)
      requires Valid()
      modifies Repr()
      ensures Valid()
      ensures out == if old(Space()) >= 1 then old(out) + [c] else old(out)
      ensures Space() == if old(Space()) >= 1 then old(Space()) - 1 else old(Space())
    {
      match target {
        case ToBuffer(buf) =>
          if pos < buf.Length - 1 {
            buf[pos] := c;
            pos, out := pos + 1, out + [c];
          }
        case ToRing(ring, locale) =>
          TypedAppend(locale, out, [c]);
          var ok := ring.Push(AsciiToHid(locale, c));
          out := if ok then out + [c] else out;
      }
    }

    method EmitStr(s: string)
      requires Valid() && Space() >= |s|
      modifies Repr()
      ensures Valid() && out == old(out) + s && Space() == old(Space()) - |s|
    {
      for k := 0 to |s|
        invariant Valid() && out == old(out) + s[..k] && Space() == old(Space()) - k
      {
        EmitChar(s[k]);
      }
    }
  }

  method EmitDelayToken(sink: CharSink, l: Locale, ms: U16)
    requires sink.Valid() && sink.SpaceFor(DelaySize(l, ms))
    modifies sink.Repr()
    ensures sink.Valid() && sink.out == old(sink.out) + DelayText(l, ms)
    ensures sink.Space() == old(sink.Space()) - |DelayText(l, ms)|
  {
    hide CharSink.Valid, CharSink.Space, Decimal, DelayDigits;
    DelaySizeIsLength(l, ms);
    sink.EmitStr(Opening(l));
    sink.EmitChar('D');
    EmitDecimal(sink, ms);
    sink.EmitStr(Closing(l));
  }

  method EmitDecimal(sink: CharSink, ms: U16)
    requires sink.Valid() && sink.SpaceFor(|Decimal(ms)|)
    modifies sink.Repr()
    ensures sink.Valid() && sink.out == old(sink.out) + Decimal(ms)
    ensures sink.Space() == old(sink.Space()) - |Decimal(ms)|
  {
    hide CharSink.Valid, CharSink.Space, Decimal, Reversed;
    var d, n := CollectDigits(ms);
    EmitBackwards(sink, d[..n]);
  }

  /** Digits, least significant first; five are enough for 16 bits. */
  method CollectDigits(ms: U16) returns (d: array<char>, n: nat)
    ensures fresh(d) && n <= d.Length && Reversed(d[..n]) == Decimal(ms)
  {
    d, n := new char[6], 0;
    var v: nat := ms;
    DigitsFit(ms, 5, 100000);
    while v > 0
      invariant n + |Decimal(v)| == |Decimal(ms)| <= 5
      invariant Decimal(ms) == Decimal(v) + Reversed(d[..n])
    {
      d[n] := ('0' as int + v % 10) as char;
      assert d[..n + 1] == d[..n] + [d[n]];
      n, v := n + 1, v / 10;
    }
  }

  method EmitBackwards(sink: CharSink, d: string)
    requires sink.Valid() && sink.SpaceFor(|d|)
    modifies sink.Repr()
    ensures sink.Valid() && sink.out == old(sink.out) + Reversed(d)
    ensures sink.Space() == old(sink.Space()) - |d|
  {
    hide CharSink.Valid, CharSink.Space, Reversed;
    var n := |d|;
    assert d[..n] == d;
    NothingReversed();
    while n > 0
      invariant n <= |d|
      invariant sink.Valid() && sink.out + Reversed(d[..n]) == old(sink.out) + Reversed(d)
      invariant sink.Space() == old(sink.Space()) - |d| + n
    {
      n := n - 1;
      ReversedStep(d, n);
      sink.EmitChar(d[n]);
    }
  }

  lemma NothingReversed()
    ensures Reversed("") == ""
  {
  }

  lemma ReversedStep(d: string, n: nat)
    requires n < |d|
    ensures Reversed(d[..n + 1]) == [d[n]] + Reversed(d[..n])
  {
    assert d[..n + 1][..n] == d[..n];
  }

  function Reversed(s: string): (r: string)
    ensures |r| == |s|
  {
    if s == "" then "" else [s[|s| - 1]] + Reversed(s[..|s| - 1])
  }

  method EmitToken(sink: CharSink, l: Locale, mods: bv8, page: U16, keycode: U16)
    requires sink.Valid() && sink.SpaceFor(TokenSize(l, mods, page, keycode))
    modifies sink.Repr()
    ensures sink.Valid() && sink.out == old(sink.out) + TokenText(l, mods, page, keycode)
    ensures sink.Space() == old(sink.Space()) - TokenSize(l, mods, page, keycode)
  {
    hide CharSink.Valid, CharSink.Space, HasMod, ModText, ModSize, ActionName;
    TokenSizeIsLength(l, mods, page, keycode);
    sink.EmitStr(Opening(l));
    EmitMods(sink, mods, Separator(l));
    sink.EmitStr(ActionName(page, keycode));
    sink.EmitStr(Closing(l));
  }

  method EmitMods(sink: CharSink, mods: bv8, sep: char)
    requires sink.Valid() && sink.SpaceFor(|ModText(mods, 0, sep, true)|)
    modifies sink.Repr()
    ensures sink.Valid() && sink.out == old(sink.out) + ModText(mods, 0, sep, true)
    ensures sink.Space() == old(sink.Space()) - |ModText(mods, 0, sep, true)|
  {
    hide CharSink.Valid, CharSink.Space, HasMod, ModText;
    var first := true;
    for i := 0 to 8
      invariant sink.Valid()
      invariant sink.out + ModText(mods, i, sep, first) == old(sink.out) + ModText(mods, 0, sep, true)
      invariant sink.Space() - |ModText(mods, i, sep, first)| == old(sink.Space()) - |ModText(mods, 0, sep, true)|
    {
      first := EmitNextMod(sink, mods, i, sep, first);
    }
    LastModText(mods, sep, first);
    if !first {
      sink.EmitChar(sep);
    }
  }

  lemma LastModText(mods: bv8, sep: char, first: bool)
    ensures ModText(mods, 8, sep, first) == if first then "" else [sep]
  {
  }

  /** One round of the modifier loop. */
  method EmitNextMod(sink: CharSink, mods: bv8, i: nat, sep: char, first: bool) returns (first': bool)
    requires i < 8 && sink.Valid() && sink.SpaceFor(|ModText(mods, i, sep, first)|)
    modifies sink.Repr()
    ensures sink.Valid() && sink.out + ModText(mods, i + 1, sep, first') == old(sink.out) + ModText(mods, i, sep, first)
    ensures sink.Space() - |ModText(mods, i + 1, sep, first')| == old(sink.Space()) - |ModText(mods, i, sep, first)|
  {
    hide CharSink.Valid, CharSink.Space, HasMod;
    first' := first && !HasMod(mods, i);
    if HasMod(mods, i) {
      EmitMod(sink, i, sep, first);
    }
  }

  method EmitMod(sink: CharSink, i: nat, sep: char, first: bool)
    requires i < 8 && sink.Valid() && sink.SpaceFor((if first then 0 else 1) + |MOD_NAMES[i]|)
    modifies sink.Repr()
    ensures sink.Valid() && sink.out == old(sink.out) + (if first then "" else [sep]) + MOD_NAMES[i]
    ensures sink.Space() == old(sink.Space()) - (if first then 0 else 1) - |MOD_NAMES[i]|
  {
    hide CharSink.Valid, CharSink.Space;
    if !first {
      sink.EmitChar(sep);
    }
    sink.EmitStr(MOD_NAMES[i]);
  }

  /** One iteration of the walk; false when the sink refuses room, and then nothing was emitted. */
  method RenderEvent(l: Locale, e: Event, held: bv8, sink: CharSink) returns (ok: bool, held': bv8)
    requires sink.Valid()
    modifies sink.Repr()
    ensures sink.Valid() && ok == (Request(l, e, held) <= old(sink.Space()))
    ensures ok ==> sink.out == old(sink.out) + Piece(l, e, held) && held' == HeldAfter(e, held)
    ensures ok ==> sink.Space() == old(sink.Space()) - |Piece(l, e, held)|
    ensures !ok ==> sink.out == old(sink.out) && sink.Space() == old(sink.Space()) && held' == held
  {
    hide CharSink.Valid, CharSink.Space, DelayText, DelaySize, Literal, TokenText, TokenSize, AllMods, HeldAfter;
    ok, held' := true, held;
    if IsDelay(e) {
      ok := sink.SpaceFor(DelaySize(l, e.keycode));
      if ok {
        EmitDelayToken(sink, l, e.keycode);
      }
    } else if IsModifierKey(e) {
      held' := HeldAfter(e, held);
    } else if e.pressed != 0 {
      ok := RenderPress(l, e, AllMods(e, held), sink);
    }
    assert ok ==> held' == HeldAfter(e, held) by { HeldOnlyByModifiers(e, held); }
  }

  lemma HeldOnlyByModifiers(e: Event, held: bv8)
    ensures IsDelay(e) || !IsModifierKey(e) ==> HeldAfter(e, held) == held
  {
  }

  method RenderPress(l: Locale, e: Event, mods: bv8, sink: CharSink) returns (ok: bool)
    requires sink.Valid()
    modifies sink.Repr()
    ensures sink.Valid()
    ensures
      var c := Literal(l, e, mods);
      var text := if c != '\0' then [c] else TokenText(l, mods, e.usagePage, e.keycode);
      ok == (|text| <= old(sink.Space())) && sink.out == old(sink.out) + (if ok then text else "")
      && sink.Space() == old(sink.Space()) - if ok then |text| else 0
  {
    hide CharSink.Valid, CharSink.Space, TokenText, TokenSize, Literal;
    if Literal(l, e, mods) != '\0' {
      ok := sink.SpaceFor(1);
      if ok {
        sink.EmitChar(Literal(l, e, mods));
      }
    } else {
      TokenSizeIsLength(l, mods, e.usagePage, e.keycode);
      ok := sink.SpaceFor(TokenSize(l, mods, e.usagePage, e.keycode));
      if ok {
        EmitToken(sink, l, mods, e.usagePage, e.keycode);
      }
    }
  }

  /** dm_render_slot: walk from `cur` until the events or the sink's room run out. */
  method RenderSlot(events: seq<Event>, l: Locale, sink: CharSink, start: Cursor) returns (done: bool, cur: Cursor)
    requires sink.Valid()
    modifies sink.Repr()
    ensures sink.Valid()
    ensures
      var w := Walk(l, events, start, old(sink.Space()));
      && done == w.done && cur == w.cur
      && sink.out == old(sink.out) + w.text && sink.Space() == old(sink.Space()) - |w.text|
  {
    hide Piece, Request, HeldAfter, CharSink.Valid, CharSink.Space;
    cur := start;
    ghost var whole := Walk(l, events, start, sink.Space());
    while cur.idx < |events|
      invariant sink.Valid()
      invariant
        var left := Walk(l, events, cur, sink.Space());
        left.done == whole.done && left.cur == whole.cur
        && sink.out + left.text == old(sink.out) + whole.text
        && sink.Space() - |left.text| == old(sink.Space()) - |whole.text|
      decreases |events| - cur.idx
    {
      var ok, held := RenderEvent(l, events[cur.idx], cur.activeMods, sink);
      if !ok {
        return false, cur;
      }
      cur := Cursor(cur.idx + 1, held);
    }
    done := true;
  }
}
