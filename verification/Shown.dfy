/** What a preview shows of each event, stated on the bits of the masks and the keys that are down. */
module Shown {
  import opened Config
  import opened Keymaps
  import opened Render

  // ---- modifiers in force ------------------------------------------------------------------------------

  /** Bit `i` of a mask. */
  predicate Bit(m: bv8, i: nat)
    requires i < 8
  {
    match i
    case 0 => m & 1 == 1
    case 1 => m & 2 == 2
    case 2 => m & 4 == 4
    case 3 => m & 8 == 8
    case 4 => m & 16 == 16
    case 5 => m & 32 == 32
    case 6 => m & 64 == 64
    case 7 => m & 128 == 128
  }

  lemma HasModIsBit(m: bv8, i: nat)
    requires i < 8
    ensures HasMod(m, i) <==> Bit(m, i)
  {
  }

  /** Modifier `i` counts for event `k`: its key is down, or the event carries it. */
  predicate Counts(events: seq<Event>, k: nat, i: nat)
    requires k < |events| && i < 8
  {
    Down(events, k, i) || Bit(events[k].implicitMods, i) || Bit(events[k].explicitMods, i)
  }

  /** The mask the walk has for event `k`. */
  function MaskAt(events: seq<Event>, k: nat): bv8
    requires k < |events|
  {
    AllMods(events[k], CursorAt(events, k).activeMods)
  }

  lemma UnionBit(a: bv8, b: bv8, c: bv8, i: nat)
    requires i < 8
    ensures HasMod(a | b | c, i) <==> HasMod(a, i) || HasMod(b, i) || HasMod(c, i)
  {
  }

  lemma MaskIsCount(events: seq<Event>, k: nat, i: nat)
    requires k < |events| && i < 8
    ensures HasMod(MaskAt(events, k), i) <==> Counts(events, k, i)
  {
    hide HasMod, Bit;
    HeldIsDown(events, k, i);
    UnionBit(CursorAt(events, k).activeMods, events[k].implicitMods, events[k].explicitMods, i);
    HasModIsBit(events[k].implicitMods, i);
    HasModIsBit(events[k].explicitMods, i);
  }

  lemma ShiftBits(m: bv8)
    ensures Shifted(m) <==> HasMod(m, 1) || HasMod(m, 5)
    ensures m & NON_SHIFT_MASK != 0 <==>
      HasMod(m, 0) || HasMod(m, 2) || HasMod(m, 3) || HasMod(m, 4) || HasMod(m, 6) || HasMod(m, 7)
  {
  }

  // ---- what an event shows ---------------------------------------------------------------------------------

  predicate KeyDown(e: Event) { e.usagePage == 0x07 && e.pressed != 0 && !(0xE0 <= e.keycode <= 0xE7) }

  /** Nothing but a shift counts. */
  predicate OnlyShift(events: seq<Event>, k: nat)
    requires k < |events|
  {
    forall i :: 0 <= i < 8 && Counts(events, k, i) ==> i == 1 || i == 5
  }

  /** What the walk shows of event `k`. */
  function ShownAt(l: Locale, events: seq<Event>, k: nat): string
    requires k < |events|
  {
    Piece(l, events[k], CursorAt(events, k).activeMods)
  }

  lemma OnlyShiftMask(events: seq<Event>, k: nat)
    requires k < |events|
    ensures OnlyShift(events, k) <==> MaskAt(events, k) & NON_SHIFT_MASK == 0
    ensures Shifted(MaskAt(events, k)) <==> Counts(events, k, 1) || Counts(events, k, 5)
  {
    hide HasMod, Shifted, Counts, MaskAt;
    ShiftBits(MaskAt(events, k));
    forall i | 0 <= i < 8
      ensures HasMod(MaskAt(events, k), i) <==> Counts(events, k, i)
    {
      MaskIsCount(events, k, i);
    }
    assert forall i :: i in {0, 2, 3, 4, 6, 7} && Counts(events, k, i) ==> !OnlyShift(events, k);
  }

  /** `m` names exactly the modifiers that count. */
  predicate Names(m: bv8, events: seq<Event>, k: nat)
    requires k < |events|
  {
    forall i :: 0 <= i < 8 ==> (Bit(m, i) <==> Counts(events, k, i))
  }

  /** The key shows itself as a character. */
  predicate ShowsGlyph(l: Locale, events: seq<Event>, k: nat)
    requires k < |events|
  {
    && KeyDown(events[k]) && OnlyShift(events, k)
    && Printable(l, events[k].keycode, Counts(events, k, 1) || Counts(events, k, 5)) != '\0'
  }

  /**
   * A keyboard press with no modifier but shift shows the character the key makes, shifted exactly when a
   * shift is down or carried; any other press shows the token that names its modifiers and its action; a
   * delay marker shows its milliseconds; releases and modifiers show nothing.
   */
  lemma EventShows(l: Locale, events: seq<Event>, k: nat)
    requires k < |events|
    ensures
      var e, text := events[k], ShownAt(l, events, k);
      if e.usagePage == 0xFFFF && e.pressed != 0 then text == DelayText(l, e.keycode)
      else if e.pressed == 0 || (e.usagePage == 0x07 && 0xE0 <= e.keycode <= 0xE7) then text == ""
      else if ShowsGlyph(l, events, k) then
        text == [Printable(l, e.keycode, Counts(events, k, 1) || Counts(events, k, 5))]
      else
        exists m :: Names(m, events, k) && text == TokenText(l, m, e.usagePage, e.keycode)
  {
    hide HasMod, Bit, Counts, OnlyShift, DelayText, TokenText, Printable;
    OnlyShiftMask(events, k);
    forall i | 0 <= i < 8
      ensures Bit(MaskAt(events, k), i) <==> Counts(events, k, i)
    {
      MaskIsCount(events, k, i);
      HasModIsBit(MaskAt(events, k), i);
    }
    assert Names(MaskAt(events, k), events, k);
  }

  /** The pieces of the first `n` events, joined. */
  function Pieces(l: Locale, events: seq<Event>, n: nat): string
    requires n <= |events|
  {
    if n == 0 then "" else Pieces(l, events, n - 1) + ShownAt(l, events, n - 1)
  }

  lemma {:induction false} RestIsPieces(l: Locale, events: seq<Event>, n: nat)
    requires n <= |events|
    ensures Pieces(l, events, n) + Rest(l, events, CursorAt(events, n)) == Rendered(l, events)
  {
    hide Piece, HeldAfter;
    if n > 0 {
      RestIsPieces(l, events, n - 1);
      CursorAtIndex(events, n - 1);
      var cur := CursorAt(events, n - 1);
      assert Rest(l, events, cur) == ShownAt(l, events, n - 1) + Rest(l, events, CursorAt(events, n));
      assert Pieces(l, events, n) + Rest(l, events, CursorAt(events, n))
          == Pieces(l, events, n - 1) + (ShownAt(l, events, n - 1) + Rest(l, events, CursorAt(events, n)));
    }
  }

  /** A preview is what its events show, in order, and nothing else. */
  lemma PreviewIsPieces(l: Locale, events: seq<Event>)
    ensures Rendered(l, events) == Pieces(l, events, |events|)
  {
    RestIsPieces(l, events, |events|);
    CursorAtIndex(events, |events|);
    assert Rest(l, events, CursorAt(events, |events|)) == "";
  }

  // ---- tokens can be told apart ------------------------------------------------------------------------------

  /** The lowest modifier of a mask from bit `i` up, or 8. */
  function Lowest(m: bv8, i: nat): (j: nat)
    ensures i <= 8 ==> i <= j <= 8
    ensures j < 8 ==> HasMod(m, j)
    ensures forall k :: i <= k < j && k < 8 ==> !HasMod(m, k)
    decreases 8 - i
  {
    if i >= 8 then i else if HasMod(m, i) then i else Lowest(m, i + 1)
  }

  lemma {:induction false} ModTextUnfolds(m: bv8, i: nat, sep: char, first: bool)
    requires i <= 8
    ensures
      var j, lead := Lowest(m, i), if first then "" else [sep];
      ModText(m, i, sep, first)
      == if j == 8 then lead else lead + MOD_NAMES[j] + ModText(m, j + 1, sep, false)
    decreases 8 - i
  {
    hide HasMod;
    if i < 8 && !HasMod(m, i) {
      ModTextUnfolds(m, i + 1, sep, first);
    }
  }

  predicate Without(s: string, c: char) { forall k :: 0 <= k < |s| ==> s[k] != c }

  lemma NamesDiffer(i: nat, j: nat)
    requires i < 8 && j < 8
    ensures |MOD_NAMES[i]| == 4 && (MOD_NAMES[i] == MOD_NAMES[j] ==> i == j)
    ensures Without(MOD_NAMES[i], '+') && Without(MOD_NAMES[i], ' ')
  {
  }

  lemma {:induction false} ModTextStarts(m: bv8, i: nat, sep: char)
    requires i <= 8
    ensures ModText(m, i, sep, false) != "" && ModText(m, i, sep, false)[0] == sep
  {
    hide HasMod;
    ModTextUnfolds(m, i, sep, false);
  }

  /** The rest of a token from the lowest modifier on, its leading separator taken off. */
  function Tail(m: bv8, i: nat, sep: char, a: string): string
    requires i <= 8
  {
    var j := Lowest(m, i);
    if j == 8 then a else MOD_NAMES[j] + (ModText(m, j + 1, sep, false) + a)
  }

  lemma Peeled(m: bv8, i: nat, sep: char, first: bool, a: string)
    requires i <= 8
    ensures ModText(m, i, sep, first) + a == (if first then "" else [sep]) + Tail(m, i, sep, a)
  {
    hide HasMod, ModText;
    ModTextUnfolds(m, i, sep, first);
    var j := Lowest(m, i);
    var lead := if first then "" else [sep];
    if j < 8 {
      Regrouped(lead, MOD_NAMES[j], ModText(m, j + 1, sep, false), a);
    }
  }

  lemma Regrouped(a: string, b: string, c: string, d: string)
    ensures a + b + c + d == a + (b + (c + d))
  {
  }

  lemma SameLead(lead: string, x: string, y: string)
    requires lead + x == lead + y
    ensures x == y
  {
    assert x == (lead + x)[|lead|..];
    assert y == (lead + y)[|lead|..];
  }

  lemma SameName(j: nat, k: nat, u: string, v: string)
    requires j < 8 && k < 8 && MOD_NAMES[j] + u == MOD_NAMES[k] + v
    ensures j == k && u == v
  {
    NamesDiffer(j, k);
    NamesDiffer(k, j);
    assert MOD_NAMES[j] == (MOD_NAMES[j] + u)[..4];
    assert MOD_NAMES[k] == (MOD_NAMES[k] + v)[..4];
    SameLead(MOD_NAMES[j], u, v);
  }

  /** Two modifier lists with an action at the end read the same only if both parts are the same. */
  lemma {:induction false} TokensDiffer(m: bv8, n: bv8, i: nat, sep: char, first: bool, a: string, b: string)
    requires i <= 8 && (sep == '+' || sep == ' ') && Without(a, sep) && Without(b, sep)
    requires ModText(m, i, sep, first) + a == ModText(n, i, sep, first) + b
    ensures a == b && forall k :: i <= k < 8 ==> (HasMod(m, k) <==> HasMod(n, k))
    decreases 8 - i
  {
    hide HasMod, ModText, Without;
    Peeled(m, i, sep, first, a);
    Peeled(n, i, sep, first, b);
    SameLead(if first then "" else [sep], Tail(m, i, sep, a), Tail(n, i, sep, b));
    var j, k := Lowest(m, i), Lowest(n, i);
    if j < 8 && k < 8 {
      SameName(j, k, ModText(m, j + 1, sep, false) + a, ModText(n, k + 1, sep, false) + b);
      TokensDiffer(m, n, j + 1, sep, false, a, b);
    } else if j < 8 {
      SeparatorInside(m, j, sep, a, b);
    } else if k < 8 {
      SeparatorInside(n, k, sep, b, a);
    }
  }

  lemma SeparatorInside(m: bv8, j: nat, sep: char, a: string, b: string)
    requires j < 8 && Without(b, sep)
    ensures MOD_NAMES[j] + (ModText(m, j + 1, sep, false) + a) != b
  {
    NamesDiffer(j, j);
    ModTextStarts(m, j + 1, sep);
    assert (MOD_NAMES[j] + (ModText(m, j + 1, sep, false) + a))[4] == sep;
  }

  lemma KeyboardNameIsWord(keycode: int)
    ensures Without(KeyboardName(keycode), '+') && Without(KeyboardName(keycode), ' ')
  {
  }

  lemma ActionIsWord(page: U16, keycode: U16, l: Locale)
    ensures Without(ActionName(page, keycode), Separator(l))
  {
    hide KeyboardName;
    if page == KEY_PAGE {
      KeyboardNameIsWord(keycode);
    }
  }

  lemma SameEnd(x: string, y: string, end: string)
    requires x + end == y + end
    ensures x == y
  {
    assert x == (x + end)[..|x|];
    assert y == (y + end)[..|y|];
  }

  lemma Bracketed(open: string, mods: string, action: string, close: string)
    ensures open + mods + action + close == open + ((mods + action) + close)
  {
  }

  /** Two tokens read the same only if they name the same modifiers and the same action. */
  lemma TokenTellsApart(l: Locale, m: bv8, page: U16, keycode: U16, n: bv8, page': U16, keycode': U16)
    requires TokenText(l, m, page, keycode) == TokenText(l, n, page', keycode')
    ensures ActionName(page, keycode) == ActionName(page', keycode')
    ensures forall i :: 0 <= i < 8 ==> (Bit(m, i) <==> Bit(n, i))
  {
    hide HasMod, Bit, ModText, ActionName, Opening, Closing;
    var sep, open, close := Separator(l), Opening(l), Closing(l);
    var x := ModText(m, 0, sep, true) + ActionName(page, keycode);
    var y := ModText(n, 0, sep, true) + ActionName(page', keycode');
    Bracketed(open, ModText(m, 0, sep, true), ActionName(page, keycode), close);
    Bracketed(open, ModText(n, 0, sep, true), ActionName(page', keycode'), close);
    SameLead(open, x + close, y + close);
    SameEnd(x, y, close);
    ActionIsWord(page, keycode, l);
    ActionIsWord(page', keycode', l);
    TokensDiffer(m, n, 0, sep, true, ActionName(page, keycode), ActionName(page', keycode'));
    forall i | 0 <= i < 8
      ensures Bit(m, i) <==> Bit(n, i)
    {
      HasModIsBit(m, i);
      HasModIsBit(n, i);
    }
  }

  // ---- delays --------------------------------------------------------------------------------------------------

  /** The number a string of digits writes. */
  function Value(digits: string): int {
    if digits == "" then 0 else 10 * Value(digits[..|digits| - 1]) + (digits[|digits| - 1] as int - '0' as int)
  }

  lemma {:induction false} DecimalIsValue(ms: nat)
    ensures Value(Decimal(ms)) == ms
    ensures forall k :: 0 <= k < |Decimal(ms)| ==> '0' <= Decimal(ms)[k] <= '9'
  {
    if ms > 0 {
      DecimalIsValue(ms / 10);
      assert Decimal(ms)[..|Decimal(ms)| - 1] == Decimal(ms / 10);
    }
  }

  /** A delay token is a D and the milliseconds in digits, in the brackets of its layout. */
  lemma DelayShowsItsTime(l: Locale, ms: U16)
    ensures exists digits ::
      && DelayText(l, ms) == Opening(l) + "D" + digits + Closing(l) && Value(digits) == ms
      && forall k :: 0 <= k < |digits| ==> '0' <= digits[k] <= '9'
  {
    DecimalIsValue(ms);
    assert DelayText(l, ms) == Opening(l) + "D" + Decimal(ms) + Closing(l);
  }
}
