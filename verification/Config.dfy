/** Build-time sizing, result codes and the stored event format, shared by every module. */
module Config {

  /** The sizing knobs of one firmware build (dm_config.h and Kconfig). */
  datatype Sizes = Sizes(
    maxEvents: nat, maxEventsNvs: nat, avgEvents: nat, nvsSlots: nat, ramSlots: nat, arenaEvents: nat)
  {
    function Slots(): nat { nvsSlots + ramSlots }

    function Capacity(): nat { if Slots() > 0 then Slots() else 1 }

    /** The build assertions of the shell, and the Kconfig range of the NVS class cap. */
    predicate Valid() {
      && 0 < maxEvents
      && 1 <= maxEventsNvs <= maxEvents
      && 1 <= avgEvents
      && arenaEvents == avgEvents * Capacity()
      && maxEvents <= arenaEvents <= 65535
      && nvsSlots <= 16 && ramSlots <= 48
    }
  }

  type BuildSizes = s: Sizes | s.Valid() witness Sizes(64, 64, 16, 8, 8, 256)

  /** An arbitrary build that passes the build assertions: every proof holds for all of them. */
  const SIZES: BuildSizes

  const MAX_EVENTS: nat := SIZES.maxEvents
  const MAX_EVENTS_NVS: nat := SIZES.maxEventsNvs
  const NVS_SLOTS: nat := SIZES.nvsSlots
  const RAM_SLOTS: nat := SIZES.ramSlots
  const MAX_SLOTS: nat := SIZES.Slots()
  const SLOT_CAPACITY: nat := SIZES.Capacity()
  const ARENA_EVENTS: nat := SIZES.arenaEvents

  /** The per-class overwrite policy: both values of both knobs are covered. */
  const AUTO_OVERWRITE_NVS: bool
  const AUTO_OVERWRITE_RAM: bool

  /** Milliseconds between two raised events. */
  const TAP_DELAY: nat

  type U8 = x: int | 0 <= x < 0x100
  type U16 = x: int | 0 <= x < 0x1_0000

  /** A recorded event; modifier masks are HID modifier bytes. */
  datatype Event = Event(usagePage: U16, keycode: U16, implicitMods: bv8, explicitMods: bv8, pressed: U8, reserved: U8)

  const NO_EVENT: Event := Event(0, 0, 0, 0, 0, 0)

  /** One enum names every transition outcome, synchronous or delivered later. */
  datatype DmResult =
    | Ok
    | SaveQueueFull
    | DeleteQueueFull
    | SaveFailed
    | DeleteFailed
    | DeleteDeferred
    | DeleteStale
    | RejectedOccupied
    | RejectedEmpty
    | RejectedFull
    | RejectedTooLarge

  predicate IsSlot(i: int) { 0 <= i < MAX_SLOTS }

  predicate IsNvs(i: int) { 0 <= i < NVS_SLOTS }

  /** Delay markers carry a usage page no HID event uses. */
  const DELAY_PAGE: U16 := 0xFFFF

  predicate IsDelay(e: Event) { e.usagePage == DELAY_PAGE && e.pressed != 0 }

  function MakeDelay(ms: U16): Event { Event(DELAY_PAGE, ms, 0, 0, 1, 0) }

  lemma SizesFit()
    ensures 0 < MAX_EVENTS <= ARENA_EVENTS <= 65535
    ensures 1 <= MAX_EVENTS_NVS <= MAX_EVENTS
    ensures MAX_SLOTS == NVS_SLOTS + RAM_SLOTS <= 64 && MAX_SLOTS <= SLOT_CAPACITY
  {
  }
}
