/**
 * How dm_nvs.c stores slots: the byte layout of a value, the settings key of a slot, and the boot
 * restore that decodes a value and hands it to the store.
 */
module Codec {
  import opened Config
  import opened Masks
  import opened StoreSpec
  import opened SlotArena
  import opened Storage
  import opened System
  import opened Render
  import opened Messages

  // ---- one slot's value ---------------------------------------------------------------------

  const VERSION: U8 := 0xD1
  const HEADER_BYTES: nat := 8
  const EVENT_BYTES: nat := 8

  function Low(x: nat): U8 { x % 0x100 }

  /** Sixteen bits, least significant byte first. */
  function Bytes16(x: U16): (b: seq<U8>)
    ensures |b| == 2
  {
    [Low(x), Low(x / 0x100)]
  }

  function Value16(b: seq<U8>): U16
    requires |b| == 2
  {
    (b[0] as int) + 0x100 * (b[1] as int)
  }

  /** Thirty-two bits, least significant byte first. */
  function Bytes32(x: nat): (b: seq<U8>)
    ensures |b| == 4
  {
    Bytes16(x % 0x1_0000) + Bytes16((x / 0x1_0000) % 0x1_0000)
  }

  function Value32(b: seq<U8>): nat
    requires |b| == 4
  {
    Value16(b[..2]) + 0x1_0000 * Value16(b[2..])
  }

  function EncodeEvent(e: Event): (b: seq<U8>)
    ensures |b| == EVENT_BYTES
  {
    Bytes16(e.usagePage) + Bytes16(e.keycode) + [e.implicitMods as U8, e.explicitMods as U8, e.pressed, e.reserved]
  }

  function DecodeEvent(b: seq<U8>): Event
    requires |b| == EVENT_BYTES
  {
    Event(Value16(b[0..2]), Value16(b[2..4]), b[4] as bv8, b[5] as bv8, b[6], b[7])
  }

  function EncodeEvents(events: seq<Event>): (b: seq<U8>)
    ensures |b| == EVENT_BYTES * |events|
  {
    if events == [] then [] else EncodeEvents(events[..|events| - 1]) + EncodeEvent(events[|events| - 1])
  }

  function DecodeEvents(b: seq<U8>, n: nat): (events: seq<Event>)
    requires |b| == EVENT_BYTES * n
    ensures |events| == n
  {
    if n == 0 then []
    else DecodeEvents(b[..EVENT_BYTES * (n - 1)], n - 1) + [DecodeEvent(b[EVENT_BYTES * (n - 1)..])]
  }

  function Header(n: nat): (b: seq<U8>)
    ensures |b| == HEADER_BYTES
  {
    [VERSION, 0, 0, 0] + Bytes32(n)
  }

  function Encode(events: seq<Event>): (b: seq<U8>)
    ensures |b| == HEADER_BYTES + EVENT_BYTES * |events|
  {
    Header(|events|) + EncodeEvents(events)
  }

  /** What the settings handler makes of a stored value. */
  datatype Decoded =
    | SlotValue(events: seq<Event>)
    | OldVersion        // the entry is deleted
    | Invalid

  const BUFFER_BYTES: nat := HEADER_BYTES + EVENT_BYTES * MAX_EVENTS_NVS

  /** `data` is the stored value; `got` is how many bytes the read callback delivered, or an error. */
  function Decode(data: seq<U8>, got: int): Decoded
    requires got <= |data| && got <= BUFFER_BYTES
  {
    if |data| < HEADER_BYTES || got < HEADER_BYTES then Invalid
    else if data[0] != VERSION then OldVersion
    else
      var n := Value32(data[4..8]);
      if n > MAX_EVENTS_NVS || got < HEADER_BYTES + EVENT_BYTES * n then Invalid
      else SlotValue(DecodeEvents(data[HEADER_BYTES..HEADER_BYTES + EVENT_BYTES * n], n))
  }

  // ---- the layout is lossless -----------------------------------------------------------------

  lemma Round16(x: U16)
    ensures Value16(Bytes16(x)) == x
  {
  }

  lemma Round32(x: nat)
    requires x < 0x1_0000_0000
    ensures Value32(Bytes32(x)) == x
  {
    hide Bytes16, Value16;
    var low, high := x % 0x1_0000, x / 0x1_0000;
    Round16(low);
    Round16(high);
    assert Bytes32(x)[..2] == Bytes16(low) && Bytes32(x)[2..] == Bytes16(high);
  }

  lemma EventRoundTrip(e: Event)
    ensures DecodeEvent(EncodeEvent(e)) == e
  {
    hide Value16, Bytes16;
    var b := EncodeEvent(e);
    Round16(e.usagePage);
    Round16(e.keycode);
    assert b[0..2] == Bytes16(e.usagePage) && b[2..4] == Bytes16(e.keycode);
  }

  lemma {:induction false} EventsRoundTrip(events: seq<Event>)
    ensures DecodeEvents(EncodeEvents(events), |events|) == events
  {
    hide EncodeEvent, DecodeEvent;
    var n := |events|;
    if n > 0 {
      var b := EncodeEvents(events);
      EventsRoundTrip(events[..n - 1]);
      EventRoundTrip(events[n - 1]);
      assert b[..EVENT_BYTES * (n - 1)] == EncodeEvents(events[..n - 1]);
      assert b[EVENT_BYTES * (n - 1)..] == EncodeEvent(events[n - 1]);
    }
  }

  /** Event `k` stands in its own eight bytes. */
  lemma {:induction false} EventAt(events: seq<Event>, k: nat)
    requires k < |events|
    ensures EncodeEvents(events)[8 * k..8 * k + 8] == EncodeEvent(events[k])
  {
    hide EncodeEvent;
    var n := |events| - 1;
    var front := EncodeEvents(events[..n]);
    if k < n {
      EventAt(events[..n], k);
      assert EncodeEvents(events)[8 * k..8 * k + 8] == front[8 * k..8 * k + 8];
    }
  }

  /** The bytes of one stored event. */
  predicate LaidOut(b: seq<U8>, e: Event)
    requires |b| == 8
  {
    && (b[0] as int) + 256 * (b[1] as int) == e.usagePage && (b[2] as int) + 256 * (b[3] as int) == e.keycode
    && b[4] == e.implicitMods as int && b[5] == e.explicitMods as int && b[6] == e.pressed && b[7] == e.reserved
  }

  lemma EventLaidOut(e: Event)
    ensures LaidOut(EncodeEvent(e), e)
  {
  }

  function CountIn(b: int, c: int, d: int, e: int): int { b + 0x100 * c + 0x1_0000 * d + 0x100_0000 * e }

  /**
   * The stored layout: version 0xD1, three zero bytes, the event count in four bytes, then eight bytes an
   * event, everything least significant byte first.
   */
  lemma StoredLayout(events: seq<Event>, k: nat)
    requires |events| < 0x1_0000_0000 && k < |events|
    ensures
      var b := Encode(events);
      && |b| == 8 + 8 * |events| && b[..4] == [0xD1, 0, 0, 0]
      && CountIn(b[4], b[5], b[6], b[7]) == |events|
      && LaidOut(b[8 + 8 * k..16 + 8 * k], events[k])
  {
    hide EncodeEvents, EncodeEvent, LaidOut;
    var b := Encode(events);
    EventAt(events, k);
    EventLaidOut(events[k]);
    CountBytes(|events|);
    assert b[8 + 8 * k..16 + 8 * k] == EncodeEvents(events)[8 * k..8 * k + 8];
  }

  lemma CountBytes(n: nat)
    requires n < 0x1_0000_0000
    ensures
      var b := Header(n);
      b[..4] == [0xD1, 0, 0, 0] && CountIn(b[4], b[5], b[6], b[7]) == n
  {
  }

  /** Saving and restoring are inverse: decoding an encoded slot gives back its events. */
  lemma DecodeInvertsEncode(events: seq<Event>)
    requires |events| <= MAX_EVENTS_NVS
    ensures Decode(Encode(events), |Encode(events)|) == SlotValue(events)
  {
    hide EncodeEvents, DecodeEvents, Bytes32, Value32;
    var b := Encode(events);
    SizesFit();
    Round32(|events|);
    EventsRoundTrip(events);
    assert b[4..8] == Bytes32(|events|);
    assert b[HEADER_BYTES..HEADER_BYTES + EVENT_BYTES * |events|] == EncodeEvents(events);
  }

  lemma Back16(b: seq<U8>)
    requires |b| == 2
    ensures Bytes16(Value16(b)) == b
  {
  }

  lemma EventBytes(b: seq<U8>)
    requires |b| == EVENT_BYTES
    ensures EncodeEvent(DecodeEvent(b)) == b
  {
    hide Bytes16, Value16;
    Back16(b[0..2]);
    Back16(b[2..4]);
    ByteBack(b[4]);
    ByteBack(b[5]);
    var again := EncodeEvent(DecodeEvent(b));
    assert again[0..2] == b[0..2] && again[2..4] == b[2..4];
    assert again == again[0..2] + again[2..4] + again[4..];
    assert b == b[0..2] + b[2..4] + b[4..];
  }

  lemma {:induction false} EventsBytes(b: seq<U8>, n: nat)
    requires |b| == EVENT_BYTES * n
    ensures EncodeEvents(DecodeEvents(b, n)) == b
  {
    hide EncodeEvent, DecodeEvent;
    if n > 0 {
      var front, last := b[..EVENT_BYTES * (n - 1)], b[EVENT_BYTES * (n - 1)..];
      EventsBytes(front, n - 1);
      EventBytes(last);
      assert b == front + last;
    }
  }

  /** A value that decodes fits the slot class, and its event bytes are those of its events. */
  lemma EncodeInvertsDecode(data: seq<U8>, got: int)
    requires got <= |data| && got <= BUFFER_BYTES && Decode(data, got).SlotValue?
    ensures
      var events := Decode(data, got).events;
      && |events| <= MAX_EVENTS_NVS && |Encode(events)| <= got
      && EncodeEvents(events) == data[HEADER_BYTES..|Encode(events)|]
  {
    hide EncodeEvents, DecodeEvents, Value32;
    var n := Value32(data[4..8]);
    EventsBytes(data[HEADER_BYTES..HEADER_BYTES + EVENT_BYTES * n], n);
  }

  // ---- settings keys ----------------------------------------------------------------------------

  datatype Parsed = NoSlot | SlotAt(idx: nat)

  predicate IsDigit(c: char) { '0' <= c <= '9' }

  /** The digits of `s`, read after `acc`; giving up as soon as the value leaves the slot range. */
  function ParseDigits(s: string, acc: nat): Parsed {
    if s == "" then SlotAt(acc)
    else if !IsDigit(s[0]) then NoSlot
    else
      var next := acc * 10 + (s[0] as int - '0' as int);
      if next >= MAX_SLOTS then NoSlot else ParseDigits(s[1..], next)
  }

  const SLOT_PREFIX: string := "slot/"

  /** parse_slot. */
  function ParseSlot(suffix: string): Parsed {
    if |suffix| <= 5 || suffix[..5] != SLOT_PREFIX then NoSlot else ParseDigits(suffix[5..], 0)
  }

  /** match_device: what follows the instance's name and a slash. */
  function MatchDevice(device: string, name: string): (suffix: string)
  {
    if |name| > |device| && name[..|device|] == device && name[|device|] == '/' then name[|device| + 1..] else ""
  }

  /** The number a text writes after `acc`, digit by digit. */
  function ValueAfter(s: string, acc: nat): int {
    if s == "" then acc else ValueAfter(s[1..], if IsDigit(s[0]) then acc * 10 + (s[0] as int - '0' as int) else acc)
  }

  lemma {:induction false} ValueGrows(s: string, acc: nat)
    ensures ValueAfter(s, acc) >= acc
  {
    if s != "" {
      ValueGrows(s[1..], if IsDigit(s[0]) then acc * 10 + (s[0] as int - '0' as int) else acc);
    }
  }

  /** The digit loop accepts digits only, below the slot count only, and reads their number. */
  lemma {:induction false} ParseIsValue(s: string, acc: nat)
    requires acc < MAX_SLOTS
    ensures
      var parsed := ParseDigits(s, acc);
      && (parsed.SlotAt? <==> (forall k :: 0 <= k < |s| ==> IsDigit(s[k])) && ValueAfter(s, acc) < MAX_SLOTS)
      && (parsed.SlotAt? ==> parsed.idx == ValueAfter(s, acc))
  {
    if s != "" {
      assert forall k :: 0 <= k < |s[1..]| ==> s[1..][k] == s[k + 1];
      if IsDigit(s[0]) {
        var next := acc * 10 + (s[0] as int - '0' as int);
        ValueGrows(s[1..], next);
        if next < MAX_SLOTS {
          ParseIsValue(s[1..], next);
        }
        assert (forall k :: 0 <= k < |s| ==> IsDigit(s[k])) <==> forall k :: 0 <= k < |s[1..]| ==> IsDigit(s[1..][k]);
      }
    }
  }

  const KEY_CHARS: nat := 63

  /** slot_key: printed into a buffer of 64 characters, the handler's own "dm/" prefix included. */
  function SlotKey(device: string, i: nat): string {
    var key := "dm/" + device + "/slot/" + Number(i);
    if |key| <= KEY_CHARS then key else key[..KEY_CHARS]
  }

  /** The slot the handler reads back from a key; the settings subsystem strips "dm/". */
  function SlotOfKey(device: string, key: string): Parsed {
    if |key| < 3 then NoSlot else ParseSlot(MatchDevice(device, key[3..]))
  }

  lemma TwoDigits(i: nat)
    requires i < 100
    ensures
      Number(i)
      == if i < 10 then [('0' as int + i) as char]
         else [('0' as int + i / 10) as char, ('0' as int + i % 10) as char]
  {
    if i >= 10 {
      assert Decimal(i) == Decimal(i / 10) + [('0' as int + i % 10) as char];
      assert Decimal(i / 10) == Decimal(0) + [('0' as int + i / 10) as char];
    } else if i > 0 {
      assert Decimal(i) == Decimal(0) + [('0' as int + i) as char];
    }
  }

  /** Reading back a printed index gives the index; reading less of it gives something else. */
  lemma PrintedIndexParses(i: nat, k: nat)
    requires i < MAX_SLOTS && k <= |Number(i)|
    ensures ParseDigits(Number(i)[..k], 0) == SlotAt(i) <==> k == |Number(i)| || (i == 0 && k == 0)
  {
    hide Number;
    SizesFit();
    TwoDigits(i);
    var s := Number(i)[..k];
    if k == 1 {
      var d := s[0] as int - '0' as int;
      assert s[1..] == "";
      assert ParseDigits(s, 0) == ParseDigits("", d) == SlotAt(d);
    } else if k == 2 {
      var d, e := s[0] as int - '0' as int, s[1] as int - '0' as int;
      assert s[1..] == [s[1]] && s[1..][1..] == "";
      assert ParseDigits(s, 0) == ParseDigits([s[1]], d) == ParseDigits("", d * 10 + e);
    }
  }

  /** parse_slot inverts the printed slot index. */
  lemma ParseInvertsPrint(i: nat)
    requires i < MAX_SLOTS
    ensures ParseSlot(SLOT_PREFIX + Number(i)) == SlotAt(i)
  {
    hide Number;
    PrintedIndexParses(i, |Number(i)|);
    TwoDigits(i);
    SizesFit();
    var s := SLOT_PREFIX + Number(i);
    assert s[..5] == SLOT_PREFIX && s[5..] == Number(i) == Number(i)[..|Number(i)|];
  }

  /** The printed key of slot `i` leaves room for its NUL. */
  predicate KeyFits(device: string, i: nat) { |device| + |Number(i)| + 9 <= KEY_CHARS }

  /** A slot's key is read back as that slot exactly when it was not cut off at 63 characters. */
  lemma KeyParsesBackIff(device: string, i: nat)
    requires i < MAX_SLOTS
    ensures SlotOfKey(device, SlotKey(device, i)) == SlotAt(i) <==> KeyFits(device, i)
  {
    hide Number, ParseDigits;
    SizesFit();
    TwoDigits(i);
    var key := SlotKey(device, i);
    var printed := Number(i);
    var whole := "dm/" + device + "/slot/" + printed;
    var n := |device|;
    if |whole| <= KEY_CHARS {
      ParseInvertsPrint(i);
      assert key[3..] == device + "/" + (SLOT_PREFIX + printed);
      assert key[3..][..n] == device && key[3..][n + 1..] == SLOT_PREFIX + printed;
    } else if n + 9 < KEY_CHARS {
      var k := KEY_CHARS - n - 9;
      PrintedIndexParses(i, k);
      assert key[3..] == device + "/" + (SLOT_PREFIX + printed[..k]);
      assert key[3..][..n] == device && key[3..][n + 1..] == SLOT_PREFIX + printed[..k];
      assert (SLOT_PREFIX + printed[..k])[5..] == printed[..k];
    } else {
      CutSuffix(device, key);
    }
  }

  /** A key cut off before the first digit names no slot. */
  lemma CutSuffix(device: string, key: string)
    requires |key| <= KEY_CHARS && |device| + 9 >= KEY_CHARS
    ensures SlotOfKey(device, key) == NoSlot
  {
  }

  // ---- one entry per slot ---------------------------------------------------------------------------

  /** What is left of every key of a device whose name leaves no room for a digit. */
  lemma CutKeysAgree(device: string, i: nat, j: nat)
    requires |device| + 9 >= KEY_CHARS
    ensures SlotKey(device, i) == SlotKey(device, j)
  {
    hide Number;
    var lead := "dm/" + device + "/slot/";
    assert (lead + Number(i))[..KEY_CHARS] == lead[..KEY_CHARS] == (lead + Number(j))[..KEY_CHARS];
    assert (lead + Number(i))[..|lead|] == lead == (lead + Number(j))[..|lead|];
  }

  /** With room for one digit only, the key of a larger slot is that of its first digit. */
  lemma CutDigitsAgree(device: string, i: nat)
    requires |device| + 10 == KEY_CHARS && 10 <= i < MAX_SLOTS
    ensures SlotKey(device, i) == SlotKey(device, i / 10)
  {
    hide Number;
    SizesFit();
    TwoDigits(i);
    TwoDigits(i / 10);
    var lead := "dm/" + device + "/slot/";
    assert (lead + Number(i))[..KEY_CHARS] == lead + Number(i)[..1] == lead + Number(i / 10);
  }

  /** Keys that were not cut off name their slots. */
  lemma FittingKeysDiffer(device: string, i: nat, j: nat)
    requires i < MAX_SLOTS && j < MAX_SLOTS && i != j && KeyFits(device, i) && KeyFits(device, j)
    ensures SlotKey(device, i) != SlotKey(device, j)
  {
    hide SlotKey, SlotOfKey;
    KeyParsesBackIff(device, i);
    KeyParsesBackIff(device, j);
  }

  ghost predicate KeysDiffer(device: string) {
    forall i, j :: IsNvs(i) && IsNvs(j) && i != j ==> SlotKey(device, i) != SlotKey(device, j)
  }

  ghost predicate AllKeysFit(device: string) { forall i :: IsNvs(i) ==> KeyFits(device, i) }

  /** Flash slots have different settings keys exactly when none is cut off, or there is but one slot. */
  lemma KeysDifferIff(device: string)
    ensures KeysDiffer(device) <==> AllKeysFit(device) || NVS_SLOTS <= 1
  {
    hide SlotKey, KeyFits;
    SizesFit();
    if AllKeysFit(device) {
      forall i, j | IsNvs(i) && IsNvs(j) && i != j
        ensures SlotKey(device, i) != SlotKey(device, j)
      {
        FittingKeysDiffer(device, i, j);
      }
    } else if NVS_SLOTS > 1 {
      var i :| IsNvs(i) && !KeyFits(device, i);
      SomeKeysAgree(device, i);
    }
  }

  lemma SomeKeysAgree(device: string, i: nat)
    requires IsNvs(i) && !KeyFits(device, i) && NVS_SLOTS > 1
    ensures !KeysDiffer(device)
  {
    hide Number, SlotKey;
    SizesFit();
    TwoDigits(i);
    if |device| + 9 >= KEY_CHARS {
      CutKeysAgree(device, 0, 1);
      assert IsNvs(0) && IsNvs(1);
    } else {
      CutDigitsAgree(device, i);
      assert IsNvs(i / 10);
    }
  }

  /** The settings hold one entry per slot of `f`, under its printed key. */
  ghost predicate Mirrors(raw: map<string, seq<U8>>, device: string, f: Flash) {
    forall i :: IsNvs(i) ==>
      && (SlotKey(device, i) in raw <==> i in f)
      && (i in f ==> raw[SlotKey(device, i)] == Encode(f[i]))
  }

  /** What the worker does to the settings for one operation, knob entries aside. */
  function Written(raw: map<string, seq<U8>>, device: string, op: Op, ok: bool): map<string, seq<U8>>
    requires !op.SaveKnobs? ==> IsNvs(op.slot)
  {
    match op
    case Save(i, events, _) => if ok then raw[SlotKey(device, i) := Encode(events)] else raw
    case Delete(i, _) => if ok then raw - {SlotKey(device, i)} else raw
    case SaveKnobs(_, _, _) => raw
  }

  /** With keys that differ, the worker keeps flash by slot and the settings by key in step. */
  lemma WorkMirrors(raw: map<string, seq<U8>>, device: string, b: Backend, ok: bool)
    requires b.queue != [] && (!b.queue[0].SaveKnobs? ==> IsNvs(b.queue[0].slot))
    requires Mirrors(raw, device, b.flash) && (AllKeysFit(device) || NVS_SLOTS <= 1)
    ensures Mirrors(Written(raw, device, b.queue[0], ok), device, Storage.Work(b, ok).flash)
  {
    hide SlotKey, Encode;
    KeysDifferIff(device);
  }

  /** With two keys that agree it does not: saving one slot overwrites the entry of the other. */
  lemma SharedKeyOverwrites(
      raw: map<string, seq<U8>>, device: string, f: Flash, i: int, j: int, events: seq<Event>, gen: nat)
    requires IsNvs(i) && IsNvs(j) && i != j && SlotKey(device, i) == SlotKey(device, j)
    requires Mirrors(raw, device, f) && i in f && events != f[i]
    requires |f[i]| <= MAX_EVENTS_NVS && |events| <= MAX_EVENTS_NVS
    ensures !Mirrors(Written(raw, device, Save(j, events, gen), true), device, f[j := events])
  {
    hide SlotKey, Encode, Decode;
    DecodeInvertsEncode(events);
    DecodeInvertsEncode(f[i]);
    assert f[j := events][i] == f[i];
  }

  // ---- restoring ----------------------------------------------------------------------------------

  /** What became of one entry; a cleared one is deleted from the settings under `key`. */
  datatype Restored = NotFound | Ignored | Rejected | Cleared(key: string) | Loaded

  /** dm_settings_set for one stored entry, knob entries aside. */
  function Restore(s: Store, device: string, name: string, data: seq<U8>, got: int): (Store, Restored)
    requires |s.slots| == MAX_SLOTS && got <= |data| && got <= BUFFER_BYTES
  {
    match ParseSlot(MatchDevice(device, name))
    case NoSlot => (s, NotFound)
    case SlotAt(i) =>
      if !IsNvs(i) then (s, Ignored)
      else match Decode(data, got)
        case Invalid => (s, Rejected)
        case OldVersion => (s, Cleared(SlotKey(device, i)))
        case SlotValue(events) => var (s', ok) := Load(s, i, events); (s', if ok then Loaded else Rejected)
  }

  /** An entry that is not under this instance's slots is not touched: not another device's, not a knob's. */
  lemma OnlyOwnEntries(s: Store, device: string, name: string, data: seq<U8>, got: int)
    requires |s.slots| == MAX_SLOTS && got <= |data| && got <= BUFFER_BYTES
    ensures
      var (s', r) := Restore(s, device, name, data, got);
      && (r != NotFound ==> |device| + 6 < |name| && name[..|device| + 6] == device + "/slot/")
      && (r == NotFound ==> s' == s)
  {
    hide ParseDigits, Decode, Load;
    var suffix := MatchDevice(device, name);
    if |suffix| > 5 && suffix[..5] == SLOT_PREFIX {
      assert name[..|device| + 6] == name[..|device|] + [name[|device|]] + suffix[..5];
      assert device + "/" + "slot/" == device + "/slot/";
    }
  }

  /** The settings after one entry was handled. */
  function Swept(raw: map<string, seq<U8>>, r: Restored): map<string, seq<U8>> {
    if r.Cleared? then raw - {r.key} else raw
  }

  /** The entry of a slot whose key was not cut off: what is cleared is the entry that was read. */
  lemma ClearingRemovesTheEntry(s: Store, device: string, i: int, data: seq<U8>, got: int)
    requires |s.slots| == MAX_SLOTS && got <= |data| && got <= BUFFER_BYTES && IsNvs(i) && KeyFits(device, i)
    ensures |SlotKey(device, i)| >= 3
    ensures
      var (s', r) := Restore(s, device, SlotKey(device, i)[3..], data, got);
      && (r.Cleared? <==> Decode(data, got) == OldVersion)
      && (r.Cleared? ==> r.key == SlotKey(device, i) && s' == s)
      && forall raw: map<string, seq<U8>> :: Swept(raw, r).Keys
           == if r.Cleared? then raw.Keys - {SlotKey(device, i)} else raw.Keys
  {
    hide Number, Encode, Decode, ParseSlot, MatchDevice, Load;
    SizesFit();
    TwoDigits(i);
    KeyParsesBackIff(device, i);
  }

  /** A whole entry as the worker saved it. */
  function RestoreSaved(s: Store, device: string, f: Flash, i: int): (Store, Restored)
    requires |s.slots| == MAX_SLOTS && IsNvs(i) && i in f && |f[i]| <= MAX_EVENTS_NVS && |SlotKey(device, i)| >= 3
  {
    Restore(s, device, SlotKey(device, i)[3..], Encode(f[i]), |Encode(f[i])|)
  }

  /** Every entry of flash, in some order; the result says whether all were loaded. */
  function RestoreAll(s: Store, device: string, f: Flash, order: seq<int>): (Store, bool)
    requires |s.slots| == MAX_SLOTS
    requires forall i :: i in order ==> IsNvs(i) && i in f && |f[i]| <= MAX_EVENTS_NVS && |SlotKey(device, i)| >= 3
  {
    if order == [] then (s, true)
    else
      var (front, ok) := RestoreAll(s, device, f, order[..|order| - 1]);
      if |front.slots| != MAX_SLOTS then (front, false)
      else
        var (r, outcome) := RestoreSaved(front, device, f, order[|order| - 1]);
        (r, ok && outcome == Loaded)
  }

  lemma RestoreIsLoad(s: Store, device: string, f: Flash, i: int)
    requires |s.slots| == MAX_SLOTS && IsNvs(i) && i in f && |f[i]| <= MAX_EVENTS_NVS && KeyFits(device, i)
    ensures |SlotKey(device, i)| >= 3
    ensures
      var (r, ok) := Load(s, i, f[i]);
      RestoreSaved(s, device, f, i) == (r, if ok then Loaded else Rejected)
  {
    hide Number, Encode, Decode, ParseSlot, MatchDevice, Load;
    SizesFit();
    TwoDigits(i);
    KeyParsesBackIff(device, i);
    DecodeInvertsEncode(f[i]);
  }

  /** `r` holds exactly the macros of `s` in the slots restored so far. */
  ghost predicate Partly(r: Store, s: Store, done: seq<int>) {
    && |r.slots| == |s.slots| == MAX_SLOTS && r.playing == -1
    && forall j :: 0 <= j < MAX_SLOTS ==>
         !r.slots[j].pending && r.slots[j].events == if j in done then s.slots[j].events else []
  }

  lemma LoadFits(r: Store, s: Store, done: seq<int>, i: int)
    requires s.Valid() && Partly(r, s, done) && IsNvs(i)
    ensures
      var (r', ok) := Load(r, i, s.slots[i].events);
      ok && Partly(r', s, done + [i])
  {
    hide Total;
    var freed := r.With(i, r.slots[i].(events := []));
    var full := Slot(s.slots[i].events, false, r.slots[i].gen);
    TotalUpdate(freed.slots, i, full);
    TotalMonotone(freed.slots[i := full], s.slots);
  }

  lemma {:induction false} RestoresPartly(t: Store, s: Store, device: string, f: Flash, order: seq<int>)
    requires s.Valid() && Partly(t, s, [])
    requires forall i :: i in order ==> IsNvs(i) && i in f && f[i] == s.slots[i].events && KeyFits(device, i)
    ensures forall i :: i in order ==> |f[i]| <= MAX_EVENTS_NVS && |SlotKey(device, i)| >= 3
    ensures var (r, ok) := RestoreAll(t, device, f, order); ok && Partly(r, s, order)
  {
    hide Total, Load, SlotKey, RestoreSaved, KeyFits;
    forall i | i in order
      ensures |SlotKey(device, i)| >= 3
    {
      RestoreIsLoad(t, device, f, i);
    }
    if order != [] {
      var front, i := order[..|order| - 1], order[|order| - 1];
      RestoresPartly(t, s, device, f, front);
      var (r, ok) := RestoreAll(t, device, f, front);
      LoadFits(r, s, front, i);
      RestoreIsLoad(r, device, f, i);
      assert order == front + [i];
    }
  }

  /**
   * Restoring inverts saving: resetting a store and restoring, in any order, flash that agrees with an
   * earlier state `s` loads every entry and rebuilds exactly the map that state showed for NVS slots,
   * with every RAM slot empty.
   */
  lemma ReloadRebuilds(t: Store, s: Store, device: string, f: Flash, order: seq<int>)
    requires |t.slots| == MAX_SLOTS && t.playing == -1 && s.Valid()
    requires forall i :: IsNvs(i) && i in f ==> KeyFits(device, i)
    requires (forall i :: i in f ==> IsNvs(i)) && (forall i :: IsNvs(i) ==> Lookup(f, i) == Expect(s, i))
    requires forall i :: i in order <==> i in f
    ensures forall i :: i in order ==> IsNvs(i) && i in f && |f[i]| <= MAX_EVENTS_NVS && |SlotKey(device, i)| >= 3
    ensures
      var (r, ok) := RestoreAll(Reset(t), device, f, order);
      ok && |r.slots| == MAX_SLOTS && forall i :: IsSlot(i) ==> r.View(i) == if IsNvs(i) then s.View(i) else []
  {
    hide Total, SlotKey, RestoreAll, KeyFits;
    forall i | i in order
      ensures IsNvs(i) && i in f && f[i] == s.slots[i].events
    {
      assert Lookup(f, i) == Expect(s, i);
    }
    RestoresPartly(Reset(t), s, device, f, order);
    var (r, ok) := RestoreAll(Reset(t), device, f, order);
    forall i | IsNvs(i)
      ensures r.View(i) == s.View(i)
    {
      assert Lookup(f, i) == Expect(s, i);
    }
  }

  // ---- restoring flash that was never in RAM together -------------------------------------------------

  /** The store that would hold every entry of `f`. */
  function FlashStore(f: Flash): (s: Store)
    ensures |s.slots| == MAX_SLOTS
  {
    Store(seq(MAX_SLOTS, i requires 0 <= i < MAX_SLOTS => Slot(if i in f then f[i] else [], false, 0)), [], -1)
  }

  /** Entries as the worker writes them. */
  predicate Storable(f: Flash) { forall i :: i in f ==> IsNvs(i) && |f[i]| <= MAX_EVENTS_NVS }

  /** Every entry of `f` can be read back under its key. */
  predicate Readable(device: string, f: Flash) { forall i :: i in f && i >= 0 ==> KeyFits(device, i) }

  /** Each slot shows its entry or nothing, and the pool is not overfull. */
  ghost predicate Fragment(r: Store, f: Flash) {
    && |r.slots| == MAX_SLOTS && r.playing == -1 && Total(r.slots) <= ARENA_EVENTS
    && forall j :: 0 <= j < MAX_SLOTS ==>
         !r.slots[j].pending && (r.slots[j].events == [] || (j in f && r.slots[j].events == f[j]))
  }

  lemma LoadFragment(r: Store, f: Flash, done: seq<int>, i: int)
    requires Fragment(r, f) && Storable(f) && i in f
    ensures
      var (r', ok) := Load(r, i, f[i]);
      && Fragment(r', f)
      && (ok && Partly(r, FlashStore(f), done) ==> Partly(r', FlashStore(f), done + [i]))
  {
    hide Total;
    SizesFit();
    TotalUpdate(r.slots, i, r.slots[i].(events := []));
    var freed := r.With(i, r.slots[i].(events := []));
    TotalUpdate(freed.slots, i, Slot(f[i], false, r.slots[i].gen));
    assert freed.slots[i := Slot(f[i], false, r.slots[i].gen)] == r.slots[i := Slot(f[i], false, r.slots[i].gen)];
  }

  lemma {:induction false} RestoresFragment(t: Store, device: string, f: Flash, order: seq<int>)
    requires Partly(t, FlashStore(f), []) && Storable(f) && Readable(device, f) && forall i :: i in order ==> i in f
    ensures forall i :: i in order ==> IsNvs(i) && |f[i]| <= MAX_EVENTS_NVS && |SlotKey(device, i)| >= 3
    ensures
      var (r, ok) := RestoreAll(t, device, f, order);
      Fragment(r, f) && (ok ==> Partly(r, FlashStore(f), order))
  {
    hide Total, Load, SlotKey, RestoreSaved, KeyFits, Fragment;
    forall i | i in order
      ensures |SlotKey(device, i)| >= 3
    {
      RestoreIsLoad(t, device, f, i);
    }
    if order == [] {
      EmptyFragment(t, f);
    } else {
      var front, i := order[..|order| - 1], order[|order| - 1];
      RestoresFragment(t, device, f, front);
      var (r, ok) := RestoreAll(t, device, f, front);
      assert |r.slots| == MAX_SLOTS by { FragmentSlots(r, f); }
      LoadFragment(r, f, front, i);
      RestoreIsLoad(r, device, f, i);
      assert order == front + [i];
    }
  }

  lemma FragmentSlots(r: Store, f: Flash)
    requires Fragment(r, f)
    ensures |r.slots| == MAX_SLOTS
  {
  }

  lemma EmptyFragment(t: Store, f: Flash)
    requires Partly(t, FlashStore(f), [])
    ensures Fragment(t, f)
  {
    SizesFit();
    TotalFree(t.slots);
  }

  /**
   * Restoring any flash the worker could have left, in any order: each slot comes back as its entry or
   * empty, and all entries load exactly when together they fit the pool.
   */
  lemma AllLoadIffTheyFit(t: Store, device: string, f: Flash, order: seq<int>)
    requires |t.slots| == MAX_SLOTS && t.playing == -1 && Storable(f) && Readable(device, f)
    requires forall i :: i in order <==> i in f
    ensures forall i :: i in order ==> IsNvs(i) && i in f && |f[i]| <= MAX_EVENTS_NVS && |SlotKey(device, i)| >= 3
    ensures
      var (r, ok) := RestoreAll(Reset(t), device, f, order);
      && Fragment(r, f) && (ok <==> Total(FlashStore(f).slots) <= ARENA_EVENTS)
      && (ok ==> forall i :: IsSlot(i) ==> r.View(i) == if i in f then f[i] else [])
  {
    hide Total, SlotKey, RestoreAll, KeyFits;
    var s := FlashStore(f);
    RestoresFragment(Reset(t), device, f, order);
    var (r, ok) := RestoreAll(Reset(t), device, f, order);
    if Total(s.slots) <= ARENA_EVENTS {
      RestoresPartly(Reset(t), s, device, f, order);
    }
    if ok {
      TotalMonotone(s.slots, r.slots);
    }
  }

  // ---- the code ------------------------------------------------------------------------------------

  /** The save branch of the worker: header, then the events, into the static buffer. */
  method BuildValue(buf: array<U8>, events: seq<Event>) returns (size: nat)
    requires buf.Length == BUFFER_BYTES && |events| <= MAX_EVENTS_NVS
    modifies buf
    ensures size == |Encode(events)| && buf[..size] == Encode(events)
  {
    hide Bytes32, EncodeEvent;
    CopyBytes(buf, 0, Header(|events|));
    size := HEADER_BYTES;
    for k := 0 to |events|
      invariant size == HEADER_BYTES + EVENT_BYTES * k
      invariant buf[..size] == Header(|events|) + EncodeEvents(events[..k])
    {
      assert events[..k + 1][..k] == events[..k];
      CopyBytes(buf, size, EncodeEvent(events[k]));
      size := size + EVENT_BYTES;
    }
    assert events[..|events|] == events;
  }

  /** memcpy into `buf` at `at`. */
  method CopyBytes(buf: array<U8>, at: nat, b: seq<U8>)
    requires at + |b| <= buf.Length
    modifies buf
    ensures buf[..at + |b|] == old(buf[..at]) + b
  {
    for k := 0 to |b|
      invariant buf[..at + k] == old(buf[..at]) + b[..k]
    {
      buf[at + k] := b[k];
    }
  }

  /** The digit loop of parse_slot. */
  method ParseIndex(s: string) returns (parsed: Parsed)
    ensures parsed == ParseDigits(s, 0)
  {
    var value: nat, k: nat := 0, 0;
    while k < |s|
      invariant k <= |s| && ParseDigits(s, 0) == ParseDigits(s[k..], value)
    {
      if !IsDigit(s[k]) {
        return NoSlot;
      }
      value := value * 10 + (s[k] as int - '0' as int);
      if value >= MAX_SLOTS {
        return NoSlot;
      }
      assert s[k..][1..] == s[k + 1..];
      k := k + 1;
    }
    parsed := SlotAt(value);
  }

  /** The settings backend's entries, by their full keys. */
  class Settings {
    var raw: map<string, seq<U8>>

    constructor (raw: map<string, seq<U8>>)
      ensures this.raw == raw
    {
      this.raw := raw;
    }

    /** settings_delete. */
    method Delete(key: string)
      modifies this
      ensures raw == old(raw) - {key}
    {
      raw := raw - {key};
    }
  }

  /** The settings handler: decode one stored entry and hand it to the store. */
  method SettingsSet(settings: Settings, store: SlotStore, device: string, name: string, data: seq<U8>, got: int)
    returns (r: Restored)
    requires store.Valid() && got <= |data| && got <= BUFFER_BYTES
    modifies settings, store, store.arena, store.meta, store.pendingDelete
    ensures store.Valid() && |store.model.slots| == MAX_SLOTS && |old(store.model.slots)| == MAX_SLOTS
    ensures (store.model, r) == Restore(old(store.model), device, name, data, got)
    ensures settings.raw == Swept(old(settings.raw), r)
  {
    hide SlotStore.Valid, Decode, Load, ParseDigits, SlotKey;
    StoreShape(store);
    var suffix := MatchDevice(device, name);
    if |suffix| <= 5 || suffix[..5] != SLOT_PREFIX {
      return NotFound;
    }
    var parsed := ParseIndex(suffix[5..]);
    if parsed == NoSlot {
      return NotFound;
    }
    if !IsNvs(parsed.idx) {
      return Ignored;
    }
    match Decode(data, got) {
      case Invalid => r := Rejected;
      case OldVersion =>
        var key := SlotKey(device, parsed.idx);
        settings.Delete(key);
        r := Cleared(key);
      case SlotValue(events) =>
        var ok := store.Load(parsed.idx, events);
        StoreShape(store);
        r := if ok then Loaded else Rejected;
    }
  }

  lemma StoreShape(store: SlotStore)
    requires store.Valid()
    ensures |store.model.slots| == MAX_SLOTS
  {
  }
}
