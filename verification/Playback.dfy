/**
 * The playback emitter of behavior_dynamic_macro.c and its capture of the keys pressed meanwhile
 * (dm_playback_emit.h, dm_playback_buffer.h): one timer fire replays one macro event, then one
 * captured event, then finishes.
 */
module Playback {
  import opened Config
  import opened Rings
  import opened SlotArena
  import opened MacroMachine

  // ---- the verdicts ---------------------------------------------------------------------

  datatype CaptureVerdict = Pass | Capture | Bubble

  function CaptureOf(playing: bool, room: bool): CaptureVerdict {
    if !playing then Pass else if room then Capture else Bubble
  }

  datatype EmitVerdict = EmitMacro | EmitBuffer | EmitFinish

  function EmitNext(macroRemains: bool, buffered: bool): EmitVerdict {
    if macroRemains then EmitMacro else if buffered then EmitBuffer else EmitFinish
  }

  // ---- the emitter as a value ---------------------------------------------------------------

  /** Presses remembered as having gone live; 0 marks a free entry. */
  const BUBBLED_ENTRIES: nat := 4

  /** PLAYBACK_BUF_SIZE: the typing expected while a full macro replays, and a headroom. */
  const BUFFER_CELLS: nat := (MAX_EVENTS * TAP_DELAY) / 50 + 4

  /**
   * The emitter and its history: `raised` is what playback sent to the host, `gaps` the timer
   * periods it asked for; each foreign event ends up in one of `captured`, `live` and `dropped`.
   */
  datatype Player = Player(
    slot: int, next: nat, ring: seq<Event>, bubbled: seq<int>,
    raised: seq<Event>, gaps: seq<nat>, captured: seq<Event>, live: seq<Event>, dropped: seq<Event>)

  function KeyOf(e: Event): int { e.usagePage * 0x1_0000 + e.keycode }

  /** A captured event as it is stored, raw modifiers included. */
  function Stored(e: Event): Event { e.(pressed := if e.pressed == 0 then 0 else 1, reserved := 0) }

  predicate HasRoom(p: Player) { |p.ring| + 1 < BUFFER_CELLS }

  /** The first entry holding `key`, or the end. */
  function EntryOf(bubbled: seq<int>, key: int): (i: nat)
    ensures i <= |bubbled| && (i < |bubbled| ==> bubbled[i] == key)
    ensures forall j :: 0 <= j < i ==> bubbled[j] != key
  {
    if bubbled == [] || bubbled[0] == key then 0 else 1 + EntryOf(bubbled[1..], key)
  }

  function Begin(p: Player, slot: int): Player { p.(slot := slot, next := 0) }

  function PauseAfter(e: Event): nat { TAP_DELAY + if IsDelay(e) then e.keycode else 0 }

  /** One timer fire; `macro` is what the playing slot shows. */
  function Step(p: Player, macro: seq<Event>): Player {
    if p.slot < 0 then p
    else match EmitNext(p.next < |macro|, p.ring != [])
      case EmitMacro =>
        var e := macro[p.next];
        p.(next := p.next + 1, raised := p.raised + (if IsDelay(e) then [] else [e]), gaps := p.gaps + [PauseAfter(e)])
      case EmitBuffer => p.(ring := p.ring[1..], raised := p.raised + [p.ring[0]], gaps := p.gaps + [TAP_DELAY])
      case EmitFinish => p.(slot := -1)
  }

  /** The fire at which playback ends. */
  predicate Finishes(p: Player, macro: seq<Event>) {
    p.slot >= 0 && EmitNext(p.next < |macro|, p.ring != []) == EmitFinish
  }

  function Captured(p: Player, e: Event): Player {
    p.(ring := p.ring + [Stored(e)], captured := p.captured + [Stored(e)])
  }

  /** A foreign event reaches the listener while the macro plays. */
  function Arrive(p: Player, e: Event): Player
    requires p.slot >= 0
  {
    if e.pressed == 0 then
      var i := EntryOf(p.bubbled, KeyOf(e));
      if i < |p.bubbled| then p.(bubbled := p.bubbled[i := 0], live := p.live + [e])
      else if HasRoom(p) then Captured(p, e)
      else p.(dropped := p.dropped + [e])
    else match CaptureOf(true, HasRoom(p))
      case Capture => Captured(p, e)
      case _ =>
        var i := EntryOf(p.bubbled, 0);
        p.(bubbled := if i < |p.bubbled| then p.bubbled[i := KeyOf(e)] else p.bubbled, live := p.live + [e])
  }

  /** The listener: only while a macro plays is a foreign event held back. */
  function Meet(p: Player, e: Event): Player {
    if p.slot >= 0 then Arrive(p, e) else p.(live := p.live + [e])
  }

  // ---- what playback amounts to ------------------------------------------------------------------

  /** The events of a macro that reach the host. */
  function Sent(macro: seq<Event>): seq<Event> {
    if macro == [] then []
    else Sent(macro[..|macro| - 1]) + if IsDelay(macro[|macro| - 1]) then [] else [macro[|macro| - 1]]
  }

  function Pauses(macro: seq<Event>): (gaps: seq<nat>)
    ensures |gaps| == |macro|
  {
    seq(|macro|, k requires 0 <= k < |macro| => PauseAfter(macro[k]))
  }

  /** What happens while a macro plays, and after: timer fires and foreign events, in any order. */
  datatype Moment = Fire | Foreign(e: Event)

  function Play(p: Player, macro: seq<Event>, moments: seq<Moment>): Player {
    if moments == [] then p
    else
      var q := Play(p, macro, moments[..|moments| - 1]);
      match moments[|moments| - 1]
      case Fire => Step(q, macro)
      case Foreign(e) => Meet(q, e)
  }

  /** A player about to replay from the start: its ring has been drained. */
  predicate Fresh(p: Player) {
    p.slot >= 0 && p.next == 0 && p.ring == [] && |p.bubbled| == BUBBLED_ENTRIES
  }

  /** `q` is somewhere in the replay that `p` began. */
  ghost predicate Replaying(p: Player, q: Player, macro: seq<Event>) {
    && |q.bubbled| == BUBBLED_ENTRIES && (q.slot == p.slot || q.slot == -1) && |q.ring| < BUFFER_CELLS
    && p.captured <= q.captured && |q.captured| - |q.ring| >= |p.captured|
    && q.captured[|q.captured| - |q.ring|..] == q.ring && q.next <= |macro|
    && var drained := q.captured[|p.captured|..|q.captured| - |q.ring|];
       && (drained != [] || q.slot == -1 ==> q.next == |macro|) && (q.slot == -1 ==> q.ring == [])
       && q.raised == p.raised + Sent(macro[..q.next]) + drained
       && q.gaps == p.gaps + Pauses(macro[..q.next]) + seq(|drained|, _ => TAP_DELAY)
  }

  lemma StepReplays(p: Player, q: Player, macro: seq<Event>)
    requires Replaying(p, q, macro)
    ensures Replaying(p, Step(q, macro), macro)
  {
    hide PauseAfter;
    var r := Step(q, macro);
    if q.slot >= 0 {
      match EmitNext(q.next < |macro|, q.ring != []) {
        case EmitMacro =>
          assert macro[..q.next + 1][..q.next] == macro[..q.next];
        case EmitBuffer =>
        case EmitFinish =>
      }
    }
  }

  lemma ArriveReplays(p: Player, q: Player, macro: seq<Event>, e: Event)
    requires Replaying(p, q, macro) && q.slot >= 0
    ensures Replaying(p, Arrive(q, e), macro)
  {
    hide PauseAfter, Sent, Pauses, EntryOf;
    var from, to := |p.captured|, |q.captured| - |q.ring|;
    if Arrive(q, e) == Captured(q, e) {
      var r := Captured(q, e);
      assert r.captured[from..to] == q.captured[from..to];
      assert r.captured[to..] == q.captured[to..] + [Stored(e)];
    } else {
      assert Arrive(q, e).captured == q.captured && Arrive(q, e).ring == q.ring;
    }
  }

  lemma MeetReplays(p: Player, q: Player, macro: seq<Event>, e: Event)
    requires Replaying(p, q, macro)
    ensures Replaying(p, Meet(q, e), macro)
  {
    hide PauseAfter, Sent, Pauses, Arrive;
    if q.slot >= 0 {
      ArriveReplays(p, q, macro, e);
    }
  }

  lemma {:induction false} PlayReplays(p: Player, macro: seq<Event>, moments: seq<Moment>)
    requires Fresh(p)
    ensures Replaying(p, Play(p, macro, moments), macro)
  {
    hide Step, Meet;
    if moments == [] {
      assert macro[..0] == [] && p.captured[|p.captured|..] == [];
      BufferHasCells();
    } else {
      var q := Play(p, macro, moments[..|moments| - 1]);
      PlayReplays(p, macro, moments[..|moments| - 1]);
      match moments[|moments| - 1] {
        case Fire => StepReplays(p, q, macro);
        case Foreign(e) => MeetReplays(p, q, macro, e);
      }
    }
  }

  lemma BufferHasCells()
    ensures BUFFER_CELLS >= 4
  {
  }

  /**
   * However keys arrive between timer fires, a finished playback has sent the macro's non-marker
   * events in order and then every captured event in arrival order, each exactly once; and the pause
   * after each was the tap delay, lengthened by a marker's own duration.
   */
  lemma PlaybackIsMacroThenCaptured(p: Player, macro: seq<Event>, moments: seq<Moment>)
    requires Fresh(p) && Play(p, macro, moments).slot < 0
    ensures
      var q := Play(p, macro, moments);
      && p.captured <= q.captured
      && q.raised == p.raised + Sent(macro) + q.captured[|p.captured|..]
      && q.gaps == p.gaps + Pauses(macro) + seq(|q.captured| - |p.captured|, _ => TAP_DELAY)
  {
    hide Play, Sent, Pauses;
    PlayReplays(p, macro, moments);
    var q := Play(p, macro, moments);
    assert macro[..|macro|] == macro;
    assert q.captured[|p.captured|..|q.captured|] == q.captured[|p.captured|..];
  }

  /** The gaps of a playback: the tap delay after each event, and a marker's own milliseconds more. */
  ghost predicate Paced(macro: seq<Event>, gaps: seq<nat>, captured: nat) {
    && |gaps| == |macro| + captured
    && (forall k, ms: U16 :: 0 <= k < |macro| && macro[k] == MakeDelay(ms) ==> gaps[k] == TAP_DELAY + ms)
    && (forall k :: 0 <= k < |macro| && macro[k].usagePage != 0xFFFF ==> gaps[k] == TAP_DELAY)
    && (forall k :: |macro| <= k < |gaps| ==> gaps[k] == TAP_DELAY)
  }

  /** A delay marker pauses for the tap delay plus its milliseconds, everything else for the tap delay. */
  lemma PausesAreKept(p: Player, macro: seq<Event>, moments: seq<Moment>)
    requires Fresh(p) && Play(p, macro, moments).slot < 0
    ensures
      var q := Play(p, macro, moments);
      p.gaps <= q.gaps && |p.captured| <= |q.captured|
      && Paced(macro, q.gaps[|p.gaps|..], |q.captured| - |p.captured|)
  {
    hide Play, Sent;
    PlaybackIsMacroThenCaptured(p, macro, moments);
    var q := Play(p, macro, moments);
    var tail := seq(|q.captured| - |p.captured|, _ => TAP_DELAY);
    assert q.gaps == p.gaps + (Pauses(macro) + tail);
    assert q.gaps[|p.gaps|..] == Pauses(macro) + tail;
  }

  function Sum(gaps: seq<nat>): nat { if gaps == [] then 0 else Sum(gaps[..|gaps| - 1]) + gaps[|gaps| - 1] }

  /** The milliseconds of all markers of a macro. */
  function Marked(macro: seq<Event>): nat {
    if macro == [] then 0
    else
      var e := macro[|macro| - 1];
      Marked(macro[..|macro| - 1]) + if e.usagePage == 0xFFFF && e.pressed != 0 then e.keycode else 0
  }

  lemma {:induction false} SumJoin(a: seq<nat>, b: seq<nat>)
    ensures Sum(a + b) == Sum(a) + Sum(b)
  {
    if b == [] {
      assert a + b == a;
    } else {
      assert (a + b)[..|a + b| - 1] == a + b[..|b| - 1];
      SumJoin(a, b[..|b| - 1]);
    }
  }

  lemma {:induction false} SumOfPauses(macro: seq<Event>)
    ensures Sum(Pauses(macro)) == TAP_DELAY * |macro| + Marked(macro)
  {
    if macro != [] {
      var n := |macro| - 1;
      assert Pauses(macro)[..n] == Pauses(macro[..n]);
      SumOfPauses(macro[..n]);
      assert TAP_DELAY * |macro| == TAP_DELAY * n + TAP_DELAY;
    }
  }

  lemma {:induction false} SumOfTaps(n: nat)
    ensures Sum(seq(n, _ => TAP_DELAY)) == TAP_DELAY * n
  {
    if n > 0 {
      assert seq(n, _ => TAP_DELAY)[..n - 1] == seq(n - 1, _ => TAP_DELAY);
      SumOfTaps(n - 1);
      assert TAP_DELAY * n == TAP_DELAY * (n - 1) + TAP_DELAY;
    }
  }

  /** The time asked for in all: the tap delay per event sent or skipped, and what the markers add. */
  lemma PlaybackTakes(p: Player, macro: seq<Event>, moments: seq<Moment>)
    requires Fresh(p) && Play(p, macro, moments).slot < 0
    ensures
      var q := Play(p, macro, moments);
      |p.captured| <= |q.captured|
      && Sum(q.gaps) == Sum(p.gaps) + TAP_DELAY * (|macro| + |q.captured| - |p.captured|) + Marked(macro)
  {
    hide Play, Sent, Pauses, Sum, Marked;
    PlaybackIsMacroThenCaptured(p, macro, moments);
    var q := Play(p, macro, moments);
    var n := |q.captured| - |p.captured|;
    SumOfPauses(macro);
    SumOfTaps(n);
    SumJoin(p.gaps, Pauses(macro));
    SumJoin(p.gaps + Pauses(macro), seq(n, _ => TAP_DELAY));
    assert TAP_DELAY * (|macro| + n) == TAP_DELAY * |macro| + TAP_DELAY * n;
  }

  function Fires(p: Player, macro: seq<Event>, n: nat): Player {
    if n == 0 then p else Step(Fires(p, macro, n - 1), macro)
  }

  /** With no new keys, playback finishes in exactly what is left of the macro, the ring, and one step. */
  lemma {:induction false} FinishesOnTime(p: Player, macro: seq<Event>, n: nat)
    requires p.slot >= 0 && p.next <= |macro|
    ensures
      var left, q := |macro| - p.next + |p.ring|, Fires(p, macro, n);
      && (n <= left ==> q.slot == p.slot && q.next <= |macro| && |macro| - q.next + |q.ring| == left - n)
      && (n > left ==> q.slot == -1)
  {
    if n > 0 {
      FinishesOnTime(p, macro, n - 1);
    }
  }

  // ---- the fate of foreign keys ------------------------------------------------------------------

  function Presses(events: seq<Event>): nat {
    if events == [] then 0 else Presses(events[..|events| - 1]) + if events[|events| - 1].pressed != 0 then 1 else 0
  }

  /** Foreign presses among the moments. */
  function Arrivals(moments: seq<Moment>): nat {
    if moments == [] then 0
    else
      var last := moments[|moments| - 1];
      Arrivals(moments[..|moments| - 1]) + if last.Foreign? && last.e.pressed != 0 then 1 else 0
  }

  lemma PressesAppend(events: seq<Event>, e: Event)
    ensures Presses(events + [e]) == Presses(events) + if e.pressed != 0 then 1 else 0
  {
    assert (events + [e])[..|events|] == events;
  }

  lemma MeetCounts(q: Player, e: Event)
    ensures
      var r := Meet(q, e);
      && Presses(r.captured) + Presses(r.live)
         == Presses(q.captured) + Presses(q.live) + (if e.pressed != 0 then 1 else 0)
      && Presses(r.dropped) == Presses(q.dropped)
  {
    hide Presses;
    PressesAppend(q.captured, Stored(e));
    PressesAppend(q.live, e);
    PressesAppend(q.dropped, e);
  }

  /** Every foreign press is either captured or passed live, never lost. */
  lemma {:induction false} NoPressIsLost(p: Player, macro: seq<Event>, moments: seq<Moment>)
    ensures
      var q := Play(p, macro, moments);
      && Presses(q.captured) + Presses(q.live) == Presses(p.captured) + Presses(p.live) + Arrivals(moments)
      && Presses(q.dropped) == Presses(p.dropped)
  {
    hide Meet, Presses;
    if moments != [] {
      var front, last := moments[..|moments| - 1], moments[|moments| - 1];
      NoPressIsLost(p, macro, front);
      if last.Foreign? {
        MeetCounts(Play(p, macro, front), last.e);
      }
    }
  }

  /** A release is lost exactly when the ring is full and its press is not remembered as live. */
  lemma ReleaseLostIff(p: Player, e: Event)
    requires p.slot >= 0 && e.pressed == 0
    ensures Arrive(p, e).dropped != p.dropped <==> !HasRoom(p) && KeyOf(e) !in p.bubbled
    ensures Arrive(p, e).captured != p.captured <==> HasRoom(p) && KeyOf(e) !in p.bubbled
  {
  }

  /** A captured event is the one that arrived: its key, its own modifiers, pressed or not. */
  predicate SameKeystroke(k: Event, e: Event) {
    && k.usagePage == e.usagePage && k.keycode == e.keycode && k.reserved == 0
    && k.implicitMods == e.implicitMods && k.explicitMods == e.explicitMods
    && k.pressed == if e.pressed == 0 then 0 else 1
  }

  /** `captured` are some of the foreign events of `moments`, in order. */
  ghost predicate TakenFrom(captured: seq<Event>, moments: seq<Moment>)
    decreases |moments|
  {
    if moments == [] then captured == []
    else
      var front, last := moments[..|moments| - 1], moments[|moments| - 1];
      || TakenFrom(captured, front)
      || (last.Foreign? && captured != [] && SameKeystroke(captured[|captured| - 1], last.e)
          && TakenFrom(captured[..|captured| - 1], front))
  }

  /** One foreign event adds itself to what is captured, or nothing. */
  lemma MeetCaptures(q: Player, e: Event)
    ensures
      var r := Meet(q, e);
      || r.captured == q.captured
      || (|r.captured| == |q.captured| + 1 && q.captured <= r.captured && SameKeystroke(r.captured[|q.captured|], e))
  {
  }

  /** What playback captures are the foreign events themselves, in the order they came. */
  lemma {:induction false} CapturedAreForeign(p: Player, macro: seq<Event>, moments: seq<Moment>)
    ensures
      var q := Play(p, macro, moments);
      p.captured <= q.captured && TakenFrom(q.captured[|p.captured|..], moments)
  {
    hide Meet, SameKeystroke;
    if moments == [] {
      assert p.captured[|p.captured|..] == [];
    } else {
      var front, last := moments[..|moments| - 1], moments[|moments| - 1];
      CapturedAreForeign(p, macro, front);
      var q, r := Play(p, macro, front), Play(p, macro, moments);
      if last.Foreign? {
        MeetCaptures(q, last.e);
        if r.captured != q.captured {
          var before, after := q.captured[|p.captured|..], r.captured[|p.captured|..];
          assert after == before + [r.captured[|q.captured|]];
          assert after[..|after| - 1] == before;
        }
      }
    }
  }

  /** Two events are of one key exactly when their page and keycode agree. */
  lemma KeyOfTellsApart(e: Event, f: Event)
    ensures KeyOf(e) == KeyOf(f) <==> e.usagePage == f.usagePage && e.keycode == f.keycode
  {
    if e.usagePage < f.usagePage {
      assert KeyOf(e) < KeyOf(f);
    } else if f.usagePage < e.usagePage {
      assert KeyOf(f) < KeyOf(e);
    }
  }

  // ---- when a press and its release share one fate -----------------------------------------------

  function Typed(events: seq<Event>): (moments: seq<Moment>)
    ensures |moments| == |events| && forall k :: 0 <= k < |events| ==> moments[k] == Foreign(events[k])
  {
    seq(|events|, k requires 0 <= k < |events| => Foreign(events[k]))
  }

  function AllStored(events: seq<Event>): (stored: seq<Event>)
    ensures |stored| == |events|
  {
    seq(|events|, k requires 0 <= k < |events| => Stored(events[k]))
  }

  predicate WasCaptured(before: Player, after: Player, e: Event) {
    after.captured == before.captured + [Stored(e)] && after.live == before.live && after.dropped == before.dropped
  }

  predicate WentLive(before: Player, after: Player, e: Event) {
    after.captured == before.captured && after.live == before.live + [e] && after.dropped == before.dropped
  }

  /** `press` arrives at `p0`, making `p1`, and its release at `q0`, making `q1`. */
  predicate SharedFate(p0: Player, p1: Player, press: Event, q0: Player, q1: Player, release: Event) {
    || (WasCaptured(p0, p1, press) && WasCaptured(q0, q1, release))
    || (WentLive(p0, p1, press) && WentLive(q0, q1, release))
  }

  predicate IsPair(press: Event, release: Event) {
    press.pressed != 0 && release.pressed == 0 && KeyOf(press) == KeyOf(release)
  }

  predicate OtherKeys(moments: seq<Moment>, key: int) {
    forall k :: 0 <= k < |moments| && moments[k].Foreign? ==> KeyOf(moments[k].e) != key
  }

  /** Other keys and timer fires neither forget a live press nor remember one. */
  lemma OthersKeepEntry(p: Player, macro: seq<Event>, m: Moment, key: int)
    requires key != 0 && OtherKeys([m], key)
    ensures key in Play(p, macro, [m]).bubbled <==> key in p.bubbled
  {
    assert [m][..0] == [];
    assert Play(p, macro, []) == p && [m][0] == m;
    var q := Play(p, macro, [m]);
    if m.Foreign? && q.bubbled != p.bubbled {
      var i := EntryOf(p.bubbled, if m.e.pressed == 0 then KeyOf(m.e) else 0);
      assert p.bubbled[i] != key && q.bubbled[i] != key;
      assert forall j :: 0 <= j < |q.bubbled| && j != i ==> q.bubbled[j] == p.bubbled[j];
    }
  }

  lemma PlayLast(p: Player, macro: seq<Event>, moments: seq<Moment>)
    requires moments != []
    ensures
      var q := Play(p, macro, moments[..|moments| - 1]);
      Play(p, macro, moments) == Play(q, macro, [moments[|moments| - 1]])
  {
    var q, m := Play(p, macro, moments[..|moments| - 1]), moments[|moments| - 1];
    assert [m][..0] == [] && [m][0] == m;
    assert Play(q, macro, []) == q;
  }

  lemma {:induction false} EntryKept(p: Player, macro: seq<Event>, moments: seq<Moment>, key: int)
    requires key != 0 && OtherKeys(moments, key)
    ensures key in Play(p, macro, moments).bubbled <==> key in p.bubbled
  {
    if moments != [] {
      var front, last := moments[..|moments| - 1], moments[|moments| - 1];
      EntryKept(p, macro, front, key);
      PlayLast(p, macro, moments);
      OthersKeepEntry(Play(p, macro, front), macro, last, key);
    }
  }

  /** The fate of a press is the room it finds; when it goes live, a free entry remembers it. */
  lemma PressFate(p: Player, press: Event)
    requires p.slot >= 0 && press.pressed != 0 && KeyOf(press) != 0
    ensures
      var q := Arrive(p, press);
      && (HasRoom(p) ==> WasCaptured(p, q, press) && q.bubbled == p.bubbled)
      && (!HasRoom(p) ==> WentLive(p, q, press))
      && (!HasRoom(p) ==> (KeyOf(press) in q.bubbled <==> KeyOf(press) in p.bubbled || 0 in p.bubbled))
      && !(WasCaptured(p, q, press) && WentLive(p, q, press))
  {
    var i, key, q := EntryOf(p.bubbled, 0), KeyOf(press), Arrive(p, press);
    if !HasRoom(p) && i < |p.bubbled| {
      assert q.bubbled[i] == key;
    }
  }

  /** The fate of a release: live once the macro is over, else its entry first, then the room it finds. */
  lemma ReleaseFate(q: Player, release: Event)
    requires release.pressed == 0
    ensures
      var r := Meet(q, release);
      && (WentLive(q, r, release) <==> q.slot < 0 || KeyOf(release) in q.bubbled)
      && (WasCaptured(q, r, release) <==> q.slot >= 0 && KeyOf(release) !in q.bubbled && HasRoom(q))
  {
  }

  /**
   * A press made while a macro plays and its release, with any timer fires, any other keys and perhaps
   * the end of the macro between them, are both captured or both live exactly when: the macro is still
   * playing, the press found room, no entry held its key and the release finds room too; or it is still
   * playing, the press found none and an entry held its key or was free; or it is over and the press
   * found no room.
   */
  lemma SharedFateIff(p: Player, macro: seq<Event>, press: Event, between: seq<Moment>, release: Event)
    requires p.slot >= 0 && IsPair(press, release) && KeyOf(press) != 0 && OtherKeys(between, KeyOf(press))
    ensures
      var key, p1 := KeyOf(press), Arrive(p, press);
      var q := Play(p1, macro, between);
      SharedFate(p, p1, press, q, Meet(q, release), release)
      <==> if q.slot < 0 then !HasRoom(p)
           else if HasRoom(p) then key !in p.bubbled && HasRoom(q)
           else key in p.bubbled || 0 in p.bubbled
  {
    hide Arrive, Meet, Play, HasRoom, WasCaptured, WentLive, OtherKeys;
    var p1 := Arrive(p, press);
    PressFate(p, press);
    EntryKept(p1, macro, between, KeyOf(press));
    ReleaseFate(Play(p1, macro, between), release);
  }

  /** With nothing between them, the condition is one on the state before the press. */
  lemma TapSharesFateIff(p: Player, press: Event, release: Event)
    requires p.slot >= 0 && IsPair(press, release) && KeyOf(press) != 0
    ensures
      var key, p1 := KeyOf(press), Arrive(p, press);
      SharedFate(p, p1, press, p1, Arrive(p1, release), release)
      <==> if HasRoom(p) then key !in p.bubbled && |p.ring| + 2 < BUFFER_CELLS else key in p.bubbled || 0 in p.bubbled
  {
    hide Play, KeyOf;
    var p1 := Arrive(p, press);
    EmptyPlay(p1, []);
    SharedFateIff(p, [], press, [], release);
    assert HasRoom(p) ==> p1 == Captured(p, press);
    assert Meet(p1, release) == Arrive(p1, release);
  }

  lemma EmptyPlay(p: Player, macro: seq<Event>)
    ensures Play(p, macro, []) == p
  {
  }

  /** A live press with a free entry takes one for its key; the release that finds one gives it back. */
  lemma EntriesCount(q: Player, e: Event, key: int)
    requires key != 0
    ensures
      var taken := q.slot >= 0 && KeyOf(e) == key && e.pressed != 0 && !HasRoom(q) && 0 in q.bubbled;
      var given := q.slot >= 0 && KeyOf(e) == key && e.pressed == 0 && key in q.bubbled;
      multiset(Meet(q, e).bubbled)[key]
      == multiset(q.bubbled)[key] + (if taken then 1 else 0) - (if given then 1 else 0)
  {
    if q.slot >= 0 {
      var i := EntryOf(q.bubbled, if e.pressed == 0 then KeyOf(e) else 0);
      if i < |q.bubbled| {
        CountUpdate(q.bubbled, i, if e.pressed == 0 then 0 else KeyOf(e));
      }
    }
  }

  lemma CountUpdate(s: seq<int>, i: nat, x: int)
    requires i < |s|
    ensures multiset(s[i := x]) == multiset(s) - multiset{s[i]} + multiset{x}
  {
    assert s == s[..i] + [s[i]] + s[i + 1..];
    assert s[i := x] == s[..i] + [x] + s[i + 1..];
  }

  // ---- the inputs that split a pair --------------------------------------------------------------

  /** Foreign events that find room, and no entry when they are releases, are all captured. */
  predicate AllCapturable(p: Player, events: seq<Event>) {
    && |p.ring| + |events| < BUFFER_CELLS
    && forall k :: 0 <= k < |events| && events[k].pressed == 0 ==> KeyOf(events[k]) !in p.bubbled
  }

  lemma {:induction false} StreamIsCaptured(p: Player, macro: seq<Event>, events: seq<Event>)
    requires p.slot >= 0 && AllCapturable(p, events)
    ensures
      Play(p, macro, Typed(events))
      == p.(ring := p.ring + AllStored(events), captured := p.captured + AllStored(events))
  {
    hide KeyOf, Stored;
    if events != [] {
      var front, last := events[..|events| - 1], events[|events| - 1];
      assert Typed(events)[..|events| - 1] == Typed(front);
      StreamIsCaptured(p, macro, front);
      assert AllStored(events) == AllStored(front) + [Stored(last)];
      var q := Play(p, macro, Typed(front));
      assert Arrive(q, last) == Captured(q, last);
    } else {
      assert AllStored(events) == [] && Typed(events) == [];
    }
  }

  /**
   * The release headroom is not reserved: any typing that is captured whole can fill the ring, and
   * then the release of every key it left down is lost.
   */
  lemma HeadroomIsNotReserved(p: Player, macro: seq<Event>, events: seq<Event>, down: nat, release: Event)
    requires p.slot >= 0 && AllCapturable(p, events) && |p.ring| + |events| == BUFFER_CELLS - 1
    requires down < |events| && IsPair(events[down], release) && KeyOf(release) !in p.bubbled
    ensures
      var q := Play(p, macro, Typed(events) + [Foreign(release)]);
      q.captured == p.captured + AllStored(events) && q.live == p.live && q.dropped == p.dropped + [release]
  {
    hide KeyOf, Stored;
    StreamIsCaptured(p, macro, events);
    var moments := Typed(events) + [Foreign(release)];
    assert moments[..|moments| - 1] == Typed(events);
    LostRelease(Play(p, macro, Typed(events)), release);
  }

  lemma LostRelease(q: Player, release: Event)
    requires q.slot >= 0 && release.pressed == 0 && KeyOf(release) !in q.bubbled && !HasRoom(q)
    ensures Arrive(q, release) == q.(dropped := q.dropped + [release])
  {
  }

  /**
   * Entries of live presses outlive a playback: in a later one, a key that is still remembered has its
   * press captured and its release passed live, ahead of it.
   */
  lemma StaleEntrySplitsPair(p: Player, macro: seq<Event>, press: Event, release: Event)
    requires Fresh(p) && IsPair(press, release) && KeyOf(release) in p.bubbled
    ensures
      var q := Play(p, macro, [Foreign(press), Foreign(release)]);
      q.captured == p.captured + [Stored(press)] && q.live == p.live + [release]
  {
    BufferHasCells();
    var moments := [Foreign(press), Foreign(release)];
    assert moments[..1] == [Foreign(press)] && [Foreign(press)][..0] == [];
    assert Play(p, macro, moments[..1]) == Arrive(p, press);
  }

  /** What is captured has been raised by the time playback ends: nothing waits in the ring any more. */
  lemma EndedIsDrained(p: Player, macro: seq<Event>, moments: seq<Moment>)
    requires Fresh(p) && Play(p, macro, moments).slot < 0
    ensures
      var q := Play(p, macro, moments);
      q.ring == [] && p.captured <= q.captured && q.raised == p.raised + Sent(macro) + q.captured[|p.captured|..]
  {
    hide Play, Sent, Pauses;
    PlayReplays(p, macro, moments);
    PlaybackIsMacroThenCaptured(p, macro, moments);
  }

  /**
   * A captured key still held when the macro ends has its release passed live. The pair is split but
   * in order: the press was raised before playback ended.
   */
  lemma HeldPastEndSplitsPair(
      p: Player, macro: seq<Event>, before: seq<Moment>, press: Event, between: seq<Moment>, release: Event)
    requires Fresh(p) && IsPair(press, release)
    requires Play(p, macro, before).slot >= 0 && HasRoom(Play(p, macro, before))
    requires Play(p, macro, before + [Foreign(press)] + between).slot < 0
    ensures
      var p1 := Play(p, macro, before);
      var q := Play(p, macro, before + [Foreign(press)] + between);
      var r := Meet(q, release);
      && WasCaptured(p1, Play(p, macro, before + [Foreign(press)]), press) && WentLive(q, r, release)
      && q.ring == [] && r.raised == q.raised
      && |p.captured| <= |p1.captured| < |q.captured| && q.captured[|p1.captured|] == Stored(press)
      && q.raised == p.raised + Sent(macro) + q.captured[|p.captured|..]
  {
    hide Play, Sent, Step, KeyOf, EntryOf, Replaying;
    var p1 := Play(p, macro, before);
    PlayMore(p, macro, before, Foreign(press));
    var p2 := Play(p, macro, before + [Foreign(press)]);
    PlayAppend(p, macro, before + [Foreign(press)], between);
    CapturedGrows(p2, macro, between);
    CapturedGrows(p, macro, before);
    EndedIsDrained(p, macro, before + [Foreign(press)] + between);
  }

  lemma {:induction false} CapturedGrows(p: Player, macro: seq<Event>, moments: seq<Moment>)
    ensures p.captured <= Play(p, macro, moments).captured
  {
    if moments != [] {
      CapturedGrows(p, macro, moments[..|moments| - 1]);
    }
  }

  /** It is the commonest of all: press any key with room in the ring, and hold it for long enough. */
  lemma HeldPastEndIsReached(p: Player, macro: seq<Event>, press: Event)
    requires Fresh(p) && press.pressed != 0
    ensures
      var moments := [] + [Foreign(press)] + seq(|macro| + 2, _ => Fire);
      HasRoom(Play(p, macro, [])) && Play(p, macro, moments).slot < 0
  {
    hide Step, Meet, Play, Fires;
    BufferHasCells();
    EmptyPlay(p, macro);
    PlayMore(p, macro, [], Foreign(press));
    var q := Play(p, macro, [] + [Foreign(press)]);
    assert q == Captured(p, press) by { FreshCaptures(p, press); }
    FiresArePlay(p, macro, [] + [Foreign(press)], |macro| + 2);
    FinishesOnTime(q, macro, |macro| + 2);
  }

  lemma FreshCaptures(p: Player, press: Event)
    requires Fresh(p) && press.pressed != 0
    ensures Meet(p, press) == Captured(p, press)
  {
    BufferHasCells();
  }

  /** A player as the constructor leaves it. */
  function Idle(): Player { Player(-1, 0, [], [0, 0, 0, 0], [], [], [], [], []) }

  lemma {:induction false} FiresArePlay(p: Player, macro: seq<Event>, moments: seq<Moment>, n: nat)
    ensures Play(p, macro, moments + seq(n, _ => Fire)) == Fires(Play(p, macro, moments), macro, n)
  {
    hide Step;
    var all := moments + seq(n, _ => Fire);
    if n == 0 {
      assert all == moments;
    } else {
      assert all[..|all| - 1] == moments + seq(n - 1, _ => Fire);
      FiresArePlay(p, macro, moments, n - 1);
    }
  }

  lemma {:induction false} FiresKeepEntries(p: Player, macro: seq<Event>, n: nat)
    ensures Fires(p, macro, n).bubbled == p.bubbled
  {
    if n > 0 {
      FiresKeepEntries(p, macro, n - 1);
    }
  }

  /** Typing that fills the ring, one more press, and the playback to its end. */
  function StalePlayback(macro: seq<Event>, events: seq<Event>, press: Event): seq<Moment> {
    (Typed(events) + [Foreign(press)]) + seq(|macro| + BUFFER_CELLS, _ => Fire)
  }

  lemma FullRingRemembers(p: Player, macro: seq<Event>, events: seq<Event>, press: Event)
    requires Fresh(p) && AllCapturable(p, events) && |events| == BUFFER_CELLS - 1
    requires press.pressed != 0 && KeyOf(press) != 0 && 0 in p.bubbled
    ensures
      var q := Play(p, macro, Typed(events) + [Foreign(press)]);
      && q.slot == p.slot && q.next == 0 && |q.ring| == BUFFER_CELLS - 1
      && KeyOf(press) in q.bubbled && |q.bubbled| == BUBBLED_ENTRIES
  {
    hide KeyOf, Stored;
    StreamIsCaptured(p, macro, events);
    var moments := Typed(events) + [Foreign(press)];
    assert moments[..|moments| - 1] == Typed(events);
    PressFate(Play(p, macro, Typed(events)), press);
  }

  /** A later playback can begin with an entry no key is down for: the first one left it. */
  lemma StaleEntryIsReached(slot: nat, macro: seq<Event>, events: seq<Event>, press: Event, again: nat)
    requires |events| == BUFFER_CELLS - 1 && press.pressed != 0 && KeyOf(press) != 0
    requires forall k :: 0 <= k < |events| && events[k].pressed == 0 ==> KeyOf(events[k]) != 0
    ensures
      var p := Begin(Play(Begin(Idle(), slot), macro, StalePlayback(macro, events, press)), again);
      Fresh(p) && KeyOf(press) in p.bubbled
  {
    hide KeyOf, Step, Meet, Play, Fires;
    var p := Begin(Idle(), slot);
    assert p.bubbled[0] == 0;
    FullRingRemembers(p, macro, events, press);
    var typed := Typed(events) + [Foreign(press)];
    var q := Play(p, macro, typed);
    FiresArePlay(p, macro, typed, |macro| + BUFFER_CELLS);
    FiresKeepEntries(q, macro, |macro| + BUFFER_CELLS);
    FinishesOnTime(q, macro, |macro| + BUFFER_CELLS);
    PlayReplays(p, macro, StalePlayback(macro, events, press));
  }

  /**
   * With every entry taken by other keys, a press that finds the ring full goes live and is forgotten;
   * one fire later the release finds room and is captured behind it.
   */
  lemma TakenEntriesSplitPair(p: Player, macro: seq<Event>, press: Event, release: Event)
    requires p.slot >= 0 && p.next >= |macro| && |p.ring| == BUFFER_CELLS - 1 && IsPair(press, release)
    requires 0 !in p.bubbled && KeyOf(press) !in p.bubbled
    ensures
      var q := Play(p, macro, [Foreign(press), Fire, Foreign(release)]);
      q.live == p.live + [press] && q.captured == p.captured + [Stored(release)]
  {
    hide KeyOf, Stored;
    BufferHasCells();
    assert [Foreign(press), Fire, Foreign(release)] == ([Foreign(press)] + [Fire]) + [Foreign(release)];
    PlayMore(p, macro, [], Foreign(press));
    PlayMore(p, macro, [Foreign(press)], Fire);
    PlayMore(p, macro, [Foreign(press)] + [Fire], Foreign(release));
    assert [] + [Foreign(press)] == [Foreign(press)];
    assert Arrive(p, press) == p.(live := p.live + [press]);
    var r := Step(p.(live := p.live + [press]), macro);
    assert r.bubbled == p.bubbled && HasRoom(r);
    assert Arrive(r, release) == Captured(r, release);
  }

  lemma PlayMore(p: Player, macro: seq<Event>, moments: seq<Moment>, m: Moment)
    ensures
      var q := Play(p, macro, moments);
      Play(p, macro, moments + [m])
      == match m case Fire => Step(q, macro) case Foreign(e) => Meet(q, e)
  {
    assert (moments + [m])[..|moments|] == moments;
  }

  lemma {:induction false} PlayAppend(p: Player, macro: seq<Event>, first: seq<Moment>, more: seq<Moment>)
    ensures Play(p, macro, first + more) == Play(Play(p, macro, first), macro, more)
  {
    hide Step, Meet;
    var all := first + more;
    if more == [] {
      assert all == first;
    } else {
      assert all[..|all| - 1] == first + more[..|more| - 1];
      PlayAppend(p, macro, first, more[..|more| - 1]);
    }
  }

  lemma PressTakesEntry(p: Player, e: Event, i: nat)
    requires p.slot >= 0 && !HasRoom(p) && e.pressed != 0 && i < |p.bubbled| && p.bubbled[i] == 0
    requires forall j :: 0 <= j < i ==> p.bubbled[j] != 0
    ensures Arrive(p, e) == p.(bubbled := p.bubbled[i := KeyOf(e)], live := p.live + [e])
  {
    hide KeyOf;
    assert EntryOf(p.bubbled, 0) == i;
  }

  /** Presses on a full ring take the free entries, first to last. */
  lemma {:induction false} PressesTakeEntries(p: Player, macro: seq<Event>, others: seq<Event>)
    requires p.slot >= 0 && !HasRoom(p) && p.bubbled == seq(BUBBLED_ENTRIES, _ => 0) && |others| <= BUBBLED_ENTRIES
    requires forall k :: 0 <= k < |others| ==> others[k].pressed != 0 && KeyOf(others[k]) != 0
    ensures
      var q := Play(p, macro, Typed(others));
      && q.slot == p.slot && q.next == p.next && q.ring == p.ring && |q.bubbled| == BUBBLED_ENTRIES
      && forall k :: 0 <= k < BUBBLED_ENTRIES ==> q.bubbled[k] == if k < |others| then KeyOf(others[k]) else 0
  {
    hide KeyOf, Arrive;
    if others != [] {
      var n := |others| - 1;
      assert Typed(others)[..n] == Typed(others[..n]);
      PressesTakeEntries(p, macro, others[..n]);
      PressTakesEntry(Play(p, macro, Typed(others[..n])), others[n], n);
    }
  }

  /** The whole macro, typing that fills the ring, and four presses more. */
  function CrowdedPlayback(macro: seq<Event>, events: seq<Event>, others: seq<Event>): seq<Moment> {
    (seq(|macro|, _ => Fire) + Typed(events)) + Typed(others)
  }

  /** The crowded state is reached in the first playback of all. */
  lemma TakenEntriesAreReached(slot: nat, macro: seq<Event>, events: seq<Event>, others: seq<Event>, key: int)
    requires |events| == BUFFER_CELLS - 1 && |others| == BUBBLED_ENTRIES && key != 0
    requires forall k :: 0 <= k < |events| && events[k].pressed == 0 ==> KeyOf(events[k]) != 0
    requires forall k :: 0 <= k < |others| ==> others[k].pressed != 0 && KeyOf(others[k]) !in {0, key}
    ensures
      var p := Play(Begin(Idle(), slot), macro, CrowdedPlayback(macro, events, others));
      && p.slot >= 0 && p.next >= |macro| && |p.ring| == BUFFER_CELLS - 1
      && 0 !in p.bubbled && key !in p.bubbled
  {
    hide KeyOf, Step, Meet, Play, Fires;
    var p := Begin(Idle(), slot);
    assert p.bubbled == seq(BUBBLED_ENTRIES, _ => 0);
    var fires := seq(|macro|, _ => Fire);
    EmptyPlay(p, macro);
    assert [] + fires == fires;
    FiresArePlay(p, macro, [], |macro|);
    FiresKeepEntries(p, macro, |macro|);
    FinishesOnTime(p, macro, |macro|);
    var q := Play(p, macro, fires);
    PlayAppend(p, macro, fires, Typed(events));
    StreamIsCaptured(q, macro, events);
    var r := Play(p, macro, fires + Typed(events));
    PlayAppend(p, macro, fires + Typed(events), Typed(others));
    PressesTakeEntries(r, macro, others);
  }

  // ---- the emitter as it runs ------------------------------------------------------------------

  class Emitter {
    const machine: Machine
    const ring: Ring<Event>
    const bubbled: array<int>
    var slot: int             // playback_slot
    var next: nat             // playback_event
    var raised: seq<Event>
    var gaps: seq<nat>
    ghost var captured: seq<Event>
    ghost var live: seq<Event>
    ghost var dropped: seq<Event>

    ghost function Repr(): set<object> { {this, ring, ring.cells, bubbled} }

    ghost predicate Valid()
      reads ring, bubbled, machine.Repr()
    {
      && ring.Valid() && ring.cells.Length == BUFFER_CELLS
      && ring.cells != machine.store.arena && ring.cells != machine.store.draft
      && machine.Valid()
    }

    ghost function Value(): Player
      requires ring.Valid()
      reads this, ring, ring.cells, bubbled
    {
      Player(slot, next, ring.Contents(), bubbled[..], raised, gaps, captured, live, dropped)
    }

    constructor (machine: Machine)
      requires machine.Valid()
      ensures Valid() && this.machine == machine && fresh(ring) && fresh(ring.cells) && fresh(bubbled)
      ensures Value() == Idle()
    {
      this.machine := machine;
      BufferHasCells();
      ring := new Ring(BUFFER_CELLS);
      bubbled := new int[BUBBLED_ENTRIES](_ => 0);
      slot, next, raised, gaps := -1, 0, [], [];
      captured, live, dropped := [], [], [];
      new;
      assert bubbled[..] == [0, 0, 0, 0];
    }

    /** cb_store_mark_playing, on the emitter's side. */
    method Start(slot: int)
      requires Valid()
      modifies this`slot, this`next
      ensures Valid() && Value() == Begin(old(Value()), slot)
    {
      this.slot, next := slot, 0;
    }

    /** playback_work_handler, one iteration; the last one settles the store and the machine too. */
    method WorkOnce()
      requires Valid()
      modifies Repr(), machine.Repr()
      ensures Valid() && Value() == Step(old(Value()), old(machine.store.model).View(old(slot)))
      ensures
        machine.Value()
        == if Finishes(old(Value()), old(machine.store.model).View(old(slot)))
           then MachineSpec.PlayFinished(old(machine.Value()), old(slot)) else old(machine.Value())
    {
      hide SlotStore.Valid, MachineSpec.PlayFinished;
      if slot < 0 {
        return;
      }
      var macro := machine.store.Get(slot);
      match EmitNext(next < |macro|, !ring.IsEmpty()) {
        case EmitMacro =>
          var e := macro[next];
          next := next + 1;
          if !IsDelay(e) {
            raised := raised + [e];
          }
          gaps := gaps + [PauseAfter(e)];
        case EmitBuffer =>
          var _, e := ring.Pop();
          raised, gaps := raised + [e], gaps + [TAP_DELAY];
        case EmitFinish =>
          Finish();
      }
    }

    /** playback_finish. */
    method Finish()
      requires Valid()
      modifies this`slot, machine.Repr()
      ensures Valid() && Value() == old(Value()).(slot := -1)
      ensures machine.Value() == MachineSpec.PlayFinished(old(machine.Value()), old(slot))
    {
      hide SlotStore.Valid, MachineSpec.PlayFinished;
      var finished := slot;
      slot := -1;
      machine.PlayFinished(finished);
    }

    /** The first entry of `bubbled_press` holding `key`. */
    method Find(key: int) returns (i: nat)
      requires Valid()
      ensures i == EntryOf(bubbled[..], key)
    {
      i := 0;
      while i < bubbled.Length && bubbled[i] != key
        invariant i <= bubbled.Length && EntryOf(bubbled[..], key) == i + EntryOf(bubbled[i..], key)
      {
        assert bubbled[i..][1..] == bubbled[i + 1..];
        i := i + 1;
      }
    }

    /** The capture branch of the listener; false when the event goes on to the host. */
    method OnForeign(e: Event) returns (handled: bool)
      requires Valid()
      modifies Repr()
      ensures Valid() && Value() == Meet(old(Value()), e)
      ensures handled <==> live == old(live)
    {
      hide SlotStore.Valid, EntryOf, Arrive;
      if slot < 0 {
        live := live + [e];
        return false;
      }
      if e.pressed == 0 {
        handled := OnRelease(e);
      } else {
        handled := OnPress(e);
      }
    }

    method OnRelease(e: Event) returns (handled: bool)
      requires Valid() && slot >= 0 && e.pressed == 0
      modifies Repr()
      ensures Valid() && Value() == Arrive(old(Value()), e)
      ensures handled <==> live == old(live)
    {
      hide SlotStore.Valid, EntryOf, KeyOf, Captured;
      var i := Find(KeyOf(e));
      if i < bubbled.Length {
        Remember(i, 0);
        live := live + [e];
        return false;
      }
      var ok := PushEvent(e);
      if !ok {
        dropped := dropped + [e];
      }
      handled := true;
    }

    method OnPress(e: Event) returns (handled: bool)
      requires Valid() && slot >= 0 && e.pressed != 0
      modifies Repr()
      ensures Valid() && Value() == Arrive(old(Value()), e)
      ensures handled <==> live == old(live)
    {
      hide SlotStore.Valid, EntryOf, KeyOf, Captured;
      handled := CaptureOf(true, ring.Space() > 0) == Capture;
      if handled {
        var _ := PushEvent(e);
        return;
      }
      var i := Find(0);
      if i < bubbled.Length {
        Remember(i, KeyOf(e));
      }
      live := live + [e];
    }

    method PushEvent(e: Event) returns (ok: bool)
      requires Valid()
      modifies this`captured, ring`head, ring.cells
      ensures Valid() && ok == HasRoom(old(Value()))
      ensures Value() == if ok then Captured(old(Value()), e) else old(Value())
    {
      hide SlotStore.Valid, Stored;
      ok := ring.Push(Stored(e));
      if ok {
        captured := captured + [Stored(e)];
      }
    }

    method Remember(i: nat, key: int)
      requires ring.Valid() && i < bubbled.Length
      modifies bubbled
      ensures Value() == old(Value()).(bubbled := old(bubbled[..])[i := key])
    {
      bubbled[i] := key;
    }
  }
}
