/**
 * Host layouts: which character a key produces (dm_render.c) and which key types a character
 * (dm_feedback_build.c). Key codes are those of the USB HID Usage Tables, section 10.
 */
module Keymaps {

  datatype Locale = US | UK | DE | FR | FI

  /** Previews of a plain locale carry no punctuation inversion. */
  predicate IsPlain(l: Locale) { l != US && l != UK && l != FI }

  /** The characters of one key; '\0' where the key makes no printable ASCII glyph. */
  datatype Glyphs = Glyphs(normal: char, shifted: char)

  const NO_GLYPHS: Glyphs := Glyphs('\0', '\0')

  // ---- key to character ---------------------------------------------------------------

  function DigitRow(keycode: int): Glyphs {
    match keycode
    case 0x1E => Glyphs('1', '!')
    case 0x1F => Glyphs('2', '@')
    case 0x20 => Glyphs('3', '#')
    case 0x21 => Glyphs('4', '$')
    case 0x22 => Glyphs('5', '%')
    case 0x23 => Glyphs('6', '^')
    case 0x24 => Glyphs('7', '&')
    case 0x25 => Glyphs('8', '*')
    case 0x26 => Glyphs('9', '(')
    case 0x27 => Glyphs('0', ')')
    case _ => NO_GLYPHS
  }

  function UsKeymap(keycode: int): Glyphs {
    match keycode
    case 0x2C => Glyphs(' ', ' ')
    case 0x2D => Glyphs('-', '_')
    case 0x2E => Glyphs('=', '+')
    case 0x2F => Glyphs('[', '{')
    case 0x30 => Glyphs(']', '}')
    case 0x31 => Glyphs('\\', '|')
    case 0x33 => Glyphs(';', ':')
    case 0x34 => Glyphs('\'', '"')
    case 0x35 => Glyphs('`', '~')
    case 0x36 => Glyphs(',', '<')
    case 0x37 => Glyphs('.', '>')
    case 0x38 => Glyphs('/', '?')
    case _ => DigitRow(keycode)
  }

  function UkKeymap(keycode: int): Glyphs {
    match keycode
    case 0x1F => Glyphs('2', '"')
    case 0x20 => Glyphs('3', '\0')
    case 0x2C => Glyphs(' ', ' ')
    case 0x2D => Glyphs('-', '_')
    case 0x2E => Glyphs('=', '+')
    case 0x2F => Glyphs('[', '{')
    case 0x30 => Glyphs(']', '}')
    case 0x32 => Glyphs('#', '~')
    case 0x33 => Glyphs(';', ':')
    case 0x34 => Glyphs('\'', '@')
    case 0x35 => Glyphs('`', '\0')
    case 0x36 => Glyphs(',', '<')
    case 0x37 => Glyphs('.', '>')
    case 0x38 => Glyphs('/', '?')
    case 0x64 => Glyphs('\\', '|')
    case _ => DigitRow(keycode)
  }

  function FiKeymap(keycode: int): Glyphs {
    match keycode
    case 0x1E => Glyphs('1', '!')
    case 0x1F => Glyphs('2', '"')
    case 0x20 => Glyphs('3', '#')
    case 0x21 => Glyphs('4', '\0')
    case 0x22 => Glyphs('5', '%')
    case 0x23 => Glyphs('6', '&')
    case 0x24 => Glyphs('7', '/')
    case 0x25 => Glyphs('8', '(')
    case 0x26 => Glyphs('9', ')')
    case 0x27 => Glyphs('0', '=')
    case 0x2C => Glyphs(' ', ' ')
    case 0x2D => Glyphs('+', '?')
    case 0x2E => Glyphs('\0', '`')
    case 0x30 => Glyphs('\0', '^')
    case 0x32 => Glyphs('\'', '*')
    case 0x33 => Glyphs('\0', ';')
    case 0x34 => Glyphs('\0', ':')
    case 0x36 => Glyphs(',', ';')
    case 0x37 => Glyphs('.', ':')
    case 0x38 => Glyphs('-', '_')
    case 0x64 => Glyphs('<', '>')
    case _ => NO_GLYPHS
  }

  function PlainKeymap(keycode: int): Glyphs {
    if keycode == 0x2C then Glyphs(' ', ' ') else DigitRow(keycode)
  }

  function Keymap(l: Locale, keycode: int): Glyphs {
    match l
    case US => UsKeymap(keycode)
    case UK => UkKeymap(keycode)
    case FI => FiKeymap(keycode)
    case _ => PlainKeymap(keycode)
  }

  predicate IsLetterKey(keycode: int) { 0x04 <= keycode <= 0x1D }

  /** The printable character of a key on a layout, or '\0'. */
  function Printable(l: Locale, keycode: int, shifted: bool): char {
    if IsLetterKey(keycode) then
      ((if shifted then 'A' else 'a') as int + (keycode - 0x04)) as char
    else
      var g := Keymap(l, keycode);
      if shifted then g.shifted else g.normal
  }

  // ---- character to key ---------------------------------------------------------------

  datatype Keystroke = Keystroke(keycode: int, mods: bv8)

  const NO_MODS: bv8 := 0
  const SHIFT: bv8 := 0x02
  const ALTGR: bv8 := 0x04

  const SPACE_KEY := Keystroke(0x2C, NO_MODS)
  const HID_RETURN := 0x28
  const HID_BACKSPACE := 0x2A

  function LetterToHid(l: Locale, c: char): int
    requires 'a' <= c <= 'z'
  {
    if l == DE && c == 'y' then 0x1D
    else if l == DE && c == 'z' then 0x1C
    else if l == FR && c == 'a' then 0x14
    else if l == FR && c == 'q' then 0x04
    else if l == FR && c == 'w' then 0x1D
    else if l == FR && c == 'z' then 0x1A
    else if l == FR && c == 'm' then 0x33
    else 0x04 + (c as int - 'a' as int)
  }

  function DigitToHid(l: Locale, c: char): Keystroke
    requires '0' <= c <= '9'
  {
    Keystroke(if c == '0' then 0x27 else 0x1E + (c as int - '1' as int), if l == FR then SHIFT else NO_MODS)
  }

  function FiToHid(c: char): Keystroke {
    match c
    case '!' => Keystroke(0x1E, SHIFT)
    case '"' => Keystroke(0x1F, SHIFT)
    case '#' => Keystroke(0x20, SHIFT)
    case '%' => Keystroke(0x22, SHIFT)
    case '&' => Keystroke(0x23, SHIFT)
    case '/' => Keystroke(0x24, SHIFT)
    case '(' => Keystroke(0x25, SHIFT)
    case ')' => Keystroke(0x26, SHIFT)
    case '=' => Keystroke(0x27, SHIFT)
    case '+' => Keystroke(0x2D, NO_MODS)
    case '?' => Keystroke(0x2D, SHIFT)
    case '`' => Keystroke(0x2E, SHIFT)
    case '^' => Keystroke(0x30, SHIFT)
    case '*' => Keystroke(0x32, SHIFT)
    case '\'' => Keystroke(0x32, NO_MODS)
    case ';' => Keystroke(0x36, SHIFT)
    case ':' => Keystroke(0x37, SHIFT)
    case ',' => Keystroke(0x36, NO_MODS)
    case '.' => Keystroke(0x37, NO_MODS)
    case '-' => Keystroke(0x38, NO_MODS)
    case '_' => Keystroke(0x38, SHIFT)
    case '<' => Keystroke(0x64, NO_MODS)
    case '>' => Keystroke(0x64, SHIFT)
    case '[' => Keystroke(0x25, ALTGR)
    case ']' => Keystroke(0x26, ALTGR)
    case '{' => Keystroke(0x24, ALTGR)
    case '}' => Keystroke(0x27, ALTGR)
    case '@' => Keystroke(0x1F, ALTGR)
    case '$' => Keystroke(0x21, ALTGR)
    case '~' => Keystroke(0x30, ALTGR)
    case '\\' => Keystroke(0x2D, ALTGR)
    case '|' => Keystroke(0x64, ALTGR)
    case _ => SPACE_KEY
  }

  function UsUkToHid(uk: bool, c: char): Keystroke {
    match c
    case '[' => Keystroke(0x2F, NO_MODS)
    case ']' => Keystroke(0x30, NO_MODS)
    case '\'' => Keystroke(0x34, NO_MODS)
    case '"' => if uk then Keystroke(0x1F, SHIFT) else Keystroke(0x34, SHIFT)
    case ':' => Keystroke(0x33, SHIFT)
    case ';' => Keystroke(0x33, NO_MODS)
    case '+' => Keystroke(0x2E, SHIFT)
    case '=' => Keystroke(0x2E, NO_MODS)
    case '-' => Keystroke(0x2D, NO_MODS)
    case '_' => Keystroke(0x2D, SHIFT)
    case '.' => Keystroke(0x37, NO_MODS)
    case ',' => Keystroke(0x36, NO_MODS)
    case '<' => Keystroke(0x36, SHIFT)
    case '>' => Keystroke(0x37, SHIFT)
    case '/' => Keystroke(0x38, NO_MODS)
    case '?' => Keystroke(0x38, SHIFT)
    case '!' => Keystroke(0x1E, SHIFT)
    case '@' => if uk then Keystroke(0x34, SHIFT) else Keystroke(0x1F, SHIFT)
    case '#' => if uk then Keystroke(0x32, NO_MODS) else Keystroke(0x20, SHIFT)
    case '$' => Keystroke(0x21, SHIFT)
    case '%' => Keystroke(0x22, SHIFT)
    case '^' => Keystroke(0x23, SHIFT)
    case '&' => Keystroke(0x24, SHIFT)
    case '*' => Keystroke(0x25, SHIFT)
    case '(' => Keystroke(0x26, SHIFT)
    case ')' => Keystroke(0x27, SHIFT)
    case '{' => Keystroke(0x2F, SHIFT)
    case '}' => Keystroke(0x30, SHIFT)
    case '\\' => Keystroke(if uk then 0x64 else 0x31, NO_MODS)
    case '|' => Keystroke(if uk then 0x64 else 0x31, SHIFT)
    case '`' => Keystroke(0x35, NO_MODS)
    case '~' => if uk then Keystroke(0x32, SHIFT) else Keystroke(0x35, SHIFT)
    case _ => SPACE_KEY
  }

  /** The keystroke that types a character; a character without a key types a space. */
  function AsciiToHid(l: Locale, c: char): (k: Keystroke)
    ensures 0x04 <= k.keycode <= 0x64
  {
    if 'a' <= c <= 'z' then Keystroke(LetterToHid(l, c), NO_MODS)
    else if 'A' <= c <= 'Z' then Keystroke(LetterToHid(l, (c as int - 'A' as int + 'a' as int) as char), SHIFT)
    else if '0' <= c <= '9' then DigitToHid(l, c)
    else if c == ' ' then SPACE_KEY
    else if c == '\n' then Keystroke(HID_RETURN, NO_MODS)
    else if IsPlain(l) then SPACE_KEY
    else if l == FI then FiToHid(c)
    else UsUkToHid(l == UK, c)
  }

  /** A text as the keystrokes that type it. */
  function Typed(l: Locale, text: string): (keys: seq<Keystroke>)
    ensures |keys| == |text|
  {
    seq(|text|, k requires 0 <= k < |text| => AsciiToHid(l, text[k]))
  }

  lemma TypedAppend(l: Locale, a: string, b: string)
    ensures Typed(l, a + b) == Typed(l, a) + Typed(l, b)
  {
  }

  // ---- the two directions agree ---------------------------------------------------------

  predicate PrintableAscii(c: char) { ' ' <= c <= '~' }

  /** Characters FI types on the third layout level. */
  predicate NeedsAltGr(l: Locale, c: char) { AsciiToHid(l, c).mods == ALTGR }

  lemma UsKeys(c: char)
    requires PrintableAscii(c)
    ensures
      var k := AsciiToHid(US, c);
      k.mods in {NO_MODS, SHIFT} && Printable(US, k.keycode, k.mods == SHIFT) == c
  {
    hide FiKeymap, FiToHid, UkKeymap;
  }

  lemma UkKeys(c: char)
    requires PrintableAscii(c)
    ensures
      var k := AsciiToHid(UK, c);
      k.mods in {NO_MODS, SHIFT} && Printable(UK, k.keycode, k.mods == SHIFT) == c
  {
    hide FiKeymap, FiToHid, UsKeymap;
  }

  lemma FiKeys(c: char)
    requires PrintableAscii(c) && !NeedsAltGr(FI, c)
    ensures
      var k := AsciiToHid(FI, c);
      k.mods in {NO_MODS, SHIFT} && Printable(FI, k.keycode, k.mods == SHIFT) == c
  {
    hide UsKeymap, UkKeymap, UsUkToHid;
  }

  /** The third level of FI: the character of a key with AltGr, or '\0'. */
  function FiAltGr(keycode: int): char {
    match keycode
    case 0x1F => '@'
    case 0x21 => '$'
    case 0x24 => '{'
    case 0x25 => '['
    case 0x26 => ']'
    case 0x27 => '}'
    case 0x2D => '\\'
    case 0x30 => '~'
    case 0x64 => '|'
    case _ => '\0'
  }

  lemma FiThirdLevel(c: char)
    requires PrintableAscii(c)
    ensures NeedsAltGr(FI, c) <==> c in "@${[]}\\~|"
    ensures NeedsAltGr(FI, c) ==> FiAltGr(AsciiToHid(FI, c).keycode) == c
  {
    hide UsUkToHid;
  }

  /** On a punctuation layout the key that types a character produces it, on the level it is typed on. */
  lemma KeyProducesItsCharacter(l: Locale, c: char)
    requires !IsPlain(l) && PrintableAscii(c)
    ensures
      var k := AsciiToHid(l, c);
      if NeedsAltGr(l, c) then l == FI && c in "@${[]}\\~|" && FiAltGr(k.keycode) == c
      else k.mods in {NO_MODS, SHIFT} && Printable(l, k.keycode, k.mods == SHIFT) == c
  {
    hide Printable, AsciiToHid;
    if l == FI {
      FiThirdLevel(c);
      if !NeedsAltGr(l, c) {
        FiKeys(c);
      }
    } else if l == UK {
      UkKeys(c);
    } else {
      UsKeys(c);
    }
  }
}
