/** What previews are for: the query string of dm_query.c, and re-typing a preview. */
module Previews {
  import opened Config
  import opened Keymaps
  import opened Render

  // ---- the query string ---------------------------------------------------------------------

  /** What the query shows when no typing is compiled in. */
  function CountText(count: nat): string {
    "(" + (if count == 0 then "0" else Decimal(count)) + " events)"
  }

  function Clip(text: string, room: nat): string { if |text| <= room then text else text[..room] }

  /** The preview text for a buffer of `len` characters. */
  function QueryText(l: Locale, events: seq<Event>, count: nat, typing: bool, len: nat): string
    requires len > 0
  {
    if typing then Walk(l, events, START, len - 1).text else Clip(CountText(count), len - 1)
  }

  /** dm_query_preview_string: fills `buf`, always NUL-terminated, and returns the text's length. */
  method PreviewString(l: Locale, events: seq<Event>, count: nat, typing: bool, buf: array?<char>) returns (n: nat)
    modifies buf
    ensures buf == null || buf.Length == 0 ==> n == 0
    ensures buf != null && buf.Length > 0 ==>
      && n < buf.Length && buf[n] == '\0'
      && buf[..n] == QueryText(l, events, count, typing, buf.Length)
  {
    if buf == null || buf.Length == 0 {
      return 0;
    }
    buf[0] := '\0';
    if !typing {
      n := WriteText(CountText(count), buf);
    } else if |events| == 0 {
      n := 0;
    } else {
      n := RenderInto(l, events, buf);
    }
  }

  method WriteText(text: string, buf: array<char>) returns (n: nat)
    requires buf.Length > 0
    modifies buf
    ensures n < buf.Length && buf[n] == '\0' && buf[..n] == Clip(text, buf.Length - 1)
  {
    n := 0;
    while n < |text| && n < buf.Length - 1
      invariant n <= |text| && n < buf.Length && buf[..n] == text[..n]
    {
      buf[n] := text[n];
      n := n + 1;
    }
    buf[n] := '\0';
  }

  method RenderInto(l: Locale, events: seq<Event>, buf: array<char>) returns (n: nat)
    requires buf.Length > 0
    modifies buf
    ensures n < buf.Length && buf[n] == '\0' && buf[..n] == Walk(l, events, START, buf.Length - 1).text
  {
    hide Walk;
    var sink := new CharSink.Buffer(buf);
    var _, _ := RenderSlot(events, l, sink, START);
    n := sink.pos;
    buf[n] := '\0';
  }

  /**
   * A truncated preview is an honest prefix: it stops between two units of the full rendering, and
   * only where the next unit does not fit before the NUL.
   */
  lemma QueryIsHonestPrefix(l: Locale, events: seq<Event>, len: nat)
    requires len > 0
    ensures
      var text, stop := QueryText(l, events, |events|, true, len), Walk(l, events, START, len - 1).cur;
      && |text| < len && stop.idx <= |events| && stop == CursorAt(events, stop.idx)
      && text + Rest(l, events, stop) == Rendered(l, events)
      && (stop.idx < |events| ==> |text| + Request(l, events[stop.idx], stop.activeMods) >= len)
  {
    hide Walk, Rest, Request;
    assert CursorAt(events, 0) == START;
    WalkConserves(l, events, START, len - 1);
    WalkCarriesModifiers(l, events, 0, len - 1);
  }

  // ---- previews are plain ASCII ----------------------------------------------------------------

  ghost predicate Ascii(s: string) { forall k :: 0 <= k < |s| ==> PrintableAscii(s[k]) }

  lemma NamesAreAscii(page: U16, keycode: U16)
    ensures Ascii(ActionName(page, keycode))
  {
    hide KeyboardName;
    KeyNamesAreAscii(keycode);
  }

  lemma KeyNamesAreAscii(keycode: U16)
    ensures Ascii(KeyboardName(keycode))
  {
  }

  lemma LiteralIsAscii(l: Locale, e: Event, mods: bv8)
    ensures Literal(l, e, mods) == '\0' || PrintableAscii(Literal(l, e, mods))
  {
  }

  lemma AsciiJoin(a: string, b: string)
    requires Ascii(a) && Ascii(b)
    ensures Ascii(a + b)
  {
  }

  lemma ModWordIsAscii(i: nat, sep: char, first: bool)
    requires i < 8 && PrintableAscii(sep)
    ensures Ascii((if first then "" else [sep]) + MOD_NAMES[i]) && Ascii(if first then "" else [sep])
  {
  }

  lemma {:induction false} ModTextIsAscii(mods: bv8, i: nat, sep: char, first: bool)
    requires i <= 8 && PrintableAscii(sep)
    ensures Ascii(ModText(mods, i, sep, first))
    decreases 8 - i
  {
    hide HasMod, Ascii;
    if i < 8 {
      ModWordIsAscii(i, sep, first);
      ModTextIsAscii(mods, i + 1, sep, false);
      ModTextIsAscii(mods, i + 1, sep, first);
      AsciiJoin((if first then "" else [sep]) + MOD_NAMES[i], ModText(mods, i + 1, sep, false));
    } else {
      ModWordIsAscii(0, sep, first);
    }
  }

  lemma {:induction false} DecimalIsAscii(ms: nat)
    ensures Ascii(Decimal(ms))
  {
    if ms != 0 {
      DecimalIsAscii(ms / 10);
    }
  }

  lemma TokenIsAscii(l: Locale, mods: bv8, page: U16, keycode: U16)
    ensures Ascii(TokenText(l, mods, page, keycode))
  {
    hide ModText, ActionName;
    NamesAreAscii(page, keycode);
    ModTextIsAscii(mods, 0, Separator(l), true);
  }

  lemma DelayIsAscii(l: Locale, ms: U16)
    ensures Ascii(DelayText(l, ms))
  {
    hide Decimal;
    DecimalIsAscii(ms);
  }

  lemma PieceIsAscii(l: Locale, e: Event, held: bv8)
    ensures Ascii(Piece(l, e, held))
  {
    hide Literal, TokenText, DelayText, AllMods;
    DelayIsAscii(l, e.keycode);
    LiteralIsAscii(l, e, AllMods(e, held));
    TokenIsAscii(l, AllMods(e, held), e.usagePage, e.keycode);
  }

  lemma {:induction false} RestIsAscii(l: Locale, events: seq<Event>, cur: Cursor)
    ensures Ascii(Rest(l, events, cur))
    decreases |events| - cur.idx
  {
    hide Piece, HeldAfter;
    if cur.idx < |events| {
      PieceIsAscii(l, events[cur.idx], cur.activeMods);
      RestIsAscii(l, events, Advance(events[cur.idx], cur));
    }
  }

  // ---- re-typing --------------------------------------------------------------------------------

  /** One half of a keystroke as the pump raises it. */
  function EchoHalf(k: Keystroke, pressed: U8): Event
    requires 0 <= k.keycode < 0xE0
  {
    Event(KEY_PAGE, k.keycode, k.mods, 0, pressed, 0)
  }

  /** The macro a recorder would see while `text` is typed: a press and a release per character. */
  function Echo(l: Locale, text: string): (events: seq<Event>)
    ensures |events| == 2 * |text|
  {
    seq(2 * |text|, i requires 0 <= i < 2 * |text| => EchoHalf(AsciiToHid(l, text[i / 2]), 1 - i % 2))
  }

  /** What one typed character shows when it is rendered again. */
  function Again(l: Locale, c: char): string {
    Piece(l, EchoHalf(AsciiToHid(l, c), 1), 0)
  }

  lemma AgainIsSame(l: Locale, c: char)
    requires !IsPlain(l) && PrintableAscii(c)
    ensures if NeedsAltGr(l, c) then |Again(l, c)| > 1 else Again(l, c) == [c]
  {
    hide Printable, AsciiToHid;
    KeyProducesItsCharacter(l, c);
  }

  function AgainFrom(l: Locale, text: string, k: nat): string
    requires k <= |text|
    decreases |text| - k
  {
    if k == |text| then "" else Again(l, text[k]) + AgainFrom(l, text, k + 1)
  }

  /** Rendering an echo shows each typed character's piece in turn. */
  lemma {:induction false} EchoRendersPieces(l: Locale, text: string, k: nat)
    requires k <= |text|
    ensures Rest(l, Echo(l, text), Cursor(2 * k, 0)) == AgainFrom(l, text, k)
    decreases |text| - k
  {
    hide Piece, AsciiToHid;
    if k < |text| {
      var events := Echo(l, text);
      var key := AsciiToHid(l, text[k]);
      assert events[2 * k] == EchoHalf(key, 1) && events[2 * k + 1] == EchoHalf(key, 0);
      HalvesHoldNothing(l, key);
      EchoRendersPieces(l, text, k + 1);
      assert Rest(l, events, Cursor(2 * k + 1, 0)) == Rest(l, events, Cursor(2 * k + 2, 0));
    }
  }

  lemma HalvesHoldNothing(l: Locale, k: Keystroke)
    requires 0 <= k.keycode < 0xE0
    ensures HeldAfter(EchoHalf(k, 1), 0) == 0 == HeldAfter(EchoHalf(k, 0), 0)
    ensures Piece(l, EchoHalf(k, 0), 0) == ""
  {
  }

  /** Each re-rendered character is itself, or longer than one character when it needs AltGr. */
  lemma {:induction false} AgainFromText(l: Locale, text: string, k: nat)
    requires !IsPlain(l) && Ascii(text) && k <= |text|
    ensures |AgainFrom(l, text, k)| >= |text| - k
    ensures (exists j :: k <= j < |text| && NeedsAltGr(l, text[j])) ==> |AgainFrom(l, text, k)| > |text| - k
    ensures (forall j :: k <= j < |text| ==> !NeedsAltGr(l, text[j])) ==> AgainFrom(l, text, k) == text[k..]
    decreases |text| - k
  {
    hide Again, AsciiToHid, PrintableAscii;
    if k < |text| {
      AgainIsSame(l, text[k]);
      AgainFromText(l, text, k + 1);
    }
  }

  /**
   * Re-typing a preview is a fixed point: rendering the keystrokes typed for any macro's preview
   * gives that preview back, exactly when no character of it needs AltGr.
   */
  lemma RetypedPreviewIsFixedPoint(l: Locale, events: seq<Event>)
    requires !IsPlain(l)
    ensures
      var preview := Rendered(l, events);
      Rendered(l, Echo(l, preview)) == preview <==> forall k :: 0 <= k < |preview| ==> !NeedsAltGr(l, preview[k])
    ensures l != FI ==> Rendered(l, Echo(l, Rendered(l, events))) == Rendered(l, events)
  {
    hide Rest, AgainFrom, Echo, AsciiToHid;
    var preview := Rendered(l, events);
    RestIsAscii(l, events, START);
    EchoRendersPieces(l, preview, 0);
    AgainFromText(l, preview, 0);
    if l != FI {
      forall k | 0 <= k < |preview|
        ensures !NeedsAltGr(l, preview[k])
      {
        KeyProducesItsCharacter(l, preview[k]);
      }
    }
  }
}
