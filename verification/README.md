# Dynamic macros: a verified model

A keyboard macro recorder for ZMK firmware: macros are recorded into a draft, committed to slots that
share one pool of events, persisted to flash through a small queue, replayed, and announced by typing
messages. This project models that behaviour in Dafny and proves what every run of it keeps. The sizes
of a build (events, slots, pool, overwrite policy, tap delay) are symbolic: every theorem holds for all
builds that pass the repository's build assertions.

## What is modelled

- **The store** (`src/slot_store.c`). `SlotArena.dfy` is the store as it runs: an arena array, insertion
  sort, overlapping moves, an aliased descriptor during a move, deferred deletes, stamps. Each method is
  proved equal to a function of `StoreSpec.dfy`, and `StoreLaws.dfy` proves that those functions refine a
  plain map of macros, lose no space, and let a delete completion free only what its delete named.
- **The command machine** (`src/dm_machine.c`) over the store. `MacroMachine.dfy` is the imperative
  machine, proved equal to the functions of `MachineSpec.dfy`. A message either finishes inside its
  transition or later: which kinds type is an arbitrary set, fixed anew at every step.
- **The storage queue** (`src/dm_nvs.c`): a bounded queue, a worker, bounded completions (`Storage.dfy`),
  the byte layout, the settings keys and the restore (`Codec.dfy`, `Masks.dfy`).
- **The composition**. `System.dfy` interleaves key presses, recorded events, drained cues, timeouts,
  worker steps, completions, erases and the end of playback, one atomic step at a time.
  `SystemProofs.dfy` proves the run invariants, `SystemTheorems.dfy`, `SystemModes.dfy`, `Refusals.dfy`,
  `Completions.dfy`, `Healing.dfy` and `Reboot.dfy` the results about steps and whole runs. `Diagram.dfy` is
  the machine's state diagram, `Voices.dfy` ties messages to notifications, `RoundTrip.dfy` follows a delay
  from the binding to its playback.
- **Typing**. `Keymaps.dfy` (layouts), `Render.dfy` (the resumable preview walk into a sink that may
  refuse room), `Shown.dfy` (what each event shows), `Previews.dfy` (query string, re-typing), `Messages.dfy` and `Words.dfy` (fixed texts, what they say), `PumpSpec.dfy`,
  `PumpTheorems.dfy` and `FeedbackPump.dfy` (the ring-fed pump and auto-erase).
- **Playback and recording**. `Playback.dfy` (emitter and capture, over the ring of `Rings.dfy`),
  `Recorder.dfy` (modifier folding and lone taps), `Transcripts.dfy` (what a take writes down), and both
  composed with the whole firmware in `Performance.dfy` and `Recordings.dfy`.

`lost` in `MachineSpec.Core` is a history variable: the NVS slots whose latest storage request was refused
after RAM had changed, or ran and failed. A later accepted save, delete or move takes a slot out again, and
so does the completion of a failed delete that brings back a macro flash still holds. The flash theorems
hold for every slot outside it.

Flash is indexed by slot. That is the settings by key as long as no printed key is cut off
(`Codec.KeysDifferIff`, `Reboot.SettingsMirrorFlash`); the flash theorems and `Reboot.dfy` are about such
devices. With longer names the save of one slot overwrites another: `Codec.SharedKeyOverwrites`.

## Where the code differs from its comments

Followed as coded, each with a lemma that shows it:

- A key pressed during playback is not always captured or passed live as a whole.
  `Playback.SharedFateIff` says exactly when it is. Four inputs split a pair: a captured key held past the
  end of playback (`Playback.HeldPastEndSplitsPair`, which also shows that the order is kept); a ring filled
  by presses, since the headroom is not reserved for releases (`Playback.HeadroomIsNotReserved`,
  `Playback.ReleaseLostIff`); an entry of `bubbled_press` that outlived its playback
  (`Playback.StaleEntrySplitsPair`, reached in `Playback.StaleEntryIsReached`); and a fifth live key with
  all entries taken (`Playback.TakenEntriesSplitPair`, reached in `Playback.TakenEntriesAreReached`).
- Starting a message does not clear a pending erase, and an erase parks whatever state it finds:
  `PumpTheorems.PendingEraseKillsMessage`, `SystemModes.CueParkedByErase`. It happens to the queue-full
  cue spoken from typing_finished (`PumpTheorems.QueueFullCueDies`), and the machine then stays in the
  typing state for good: `SystemModes.LostCueFreezes`.
- A refused assign or move is announced as a refusal even when auto-overwrite has already deleted the
  occupant, and SLOT_OCCUPIED also stands for a full pool: `Refusals.RefusedAssignKeepsIff`,
  `Refusals.RefusedMoveKeepsIff`, `Refusals.OccupiedIsTrueIff`.
- A timeout that fires during an erase is swallowed: `SystemModes.SwallowedTimeoutStrandsMode`.
- A lone modifier tap flushed into the last free event of the draft leaves the modifier held:
  `Recorder.OverflowLeavesModifierHeld`. Saved and chained, it spreads: `Recordings.CutTapSpreads`.
- A 0 ms delay marker requests one character more than it emits: `Render.DelaySizeIsLength`.
- A settings key longer than 63 characters is cut off: `Codec.KeyParsesBackIff`.

## Model

| member | source | states |
|---|---|---|
| `Config.SizesFit` | src/behaviors/behavior_dynamic_macro.c:60-69 | every build that passes the build assertions has a pool below 65536 events, room in it for one longest macro, and at most 64 slots |
| `SlotArena.SlotStore.Repack` | src/slot_store.c:59-106 | compaction keeps the events of every slot, leaving ones included, packs the regions from offset 0 in their old order, returns the sum of their counts, and while a slot plays moves nothing and says so |
| `SlotArena.SlotStore.InsertByStart` | src/slot_store.c:86-91 | one insertion puts the index behind everything that starts no higher and before everything that starts higher |
| `SlotArena.SlotStore.MoveDown` | src/slot_store.c:98-99 | an overlapping copy to lower offsets delivers the old source bytes and touches nothing outside the target |
| `SlotArena.SlotStore.Get` | src/slot_store.c:123-131 | the window shows the macro of the slot, and nothing for an invalid, empty or leaving one |
| `SlotArena.SlotStore.CountFilled` | src/slot_store.c:133-143 | counts exactly the slots of the given class (all, flash or RAM) that show a macro |
| `SlotArena.SlotStore.Move` | src/slot_store.c:164-225 | descriptor aliasing, both refusals and the rollback included, the arena ends up holding what the value-level move says, with the save queued before the delete |
| `SlotArena.SlotStore.Persist` | src/slot_store.c:227-232 | queues the macro of an NVS slot under its stamp, or reports the full queue |
| `SlotArena.SlotStore.Delete` | src/slot_store.c:236-258 | an NVS slot leaves once its delete is queued, a RAM slot is freed at once, a refused delete changes nothing |
| `SlotArena.SlotStore.CompleteDelete` | src/slot_store.c:260-284 | acts only on the stamp it was issued for; a failure brings the macro back; a playing slot is not freed |
| `SlotArena.SlotStore.DraftAppend` | src/slot_store.c:288-298 | appends exactly one event or, when full, refuses and changes nothing |
| `SlotArena.SlotStore.DraftChain` | src/slot_store.c:304-317 | appends the whole macro of the source or, when it does not fit, nothing |
| `SlotArena.SlotStore.DraftCommit` | src/slot_store.c:319-351 | after compaction the draft is in the slot under a new stamp and every other macro is what it was; each refusal leaves store and draft alone |
| `SlotArena.SlotStore.Load` | src/slot_store.c:355-375 | restores a macro without a new stamp and without touching other slots; a refused load has still dropped the old occupant |
| `SlotArena.SlotStore.Reset` | src/slot_store.c:377-383 | every slot is empty, not leaving, and back at stamp 0 |
| `StoreLaws.StepRefinesMap` | src/slot_store.c:116-351 | every operation does to a plain map of macros (and a map of leaving ones) exactly what its outcome says, for the named slots only, through aliasing and rollback; a completion needs that no playing slot is leaving |
| `StoreLaws.PlayingKeptUnlessReckless` | src/slot_store.c:236-284 | that no playing slot is leaving survives an operation exactly when it is not a queued delete of the playing slot or the playing of a leaving one |
| `StoreLaws.RunRefinesMap` | src/slot_store.c:116-351 | over any run without those two requests the map follows the store operation by operation |
| `StoreLaws.OutcomeIsAbstract` | src/slot_store.c:164-351 | which outcome an operation has depends on the two maps, the queue length and whether something plays, never on layout; a persist is never too large |
| `StoreLaws.StepKeepsValid` | src/slot_store.c:48-57 | every operation keeps NVS slots within their cap and the whole within the pool |
| `StoreLaws.CommitSucceedsIffItFits` | src/slot_store.c:319-351 | no space is lost to fragmentation: a commit succeeds exactly when the slot reads empty, its class cap holds, nothing plays, and draft plus stored events fit the pool; a refusal changes nothing |
| `StoreLaws.LoadRefines` | src/slot_store.c:353-375 | a restored macro goes in exactly when it is within the cap, nothing plays and it fits beside the other slots, and keeps the stamp; a refusal drops the occupant at most; nothing else changes |
| `StoreLaws.CompletionOwnsItsContent` | src/slot_store.c:260-284 | after any operations, a delete completion that acts finds exactly the content its delete was requested for, and one whose slot was committed or moved is STALE and changes nothing |
| `StoreLaws.CompletionTakesEffect` | src/slot_store.c:260-284 | a completion nothing has superseded does act: it frees the slot, brings the macro back instead when the slot plays, and on a storage failure restores the very macro |
| `StoreLaws.MoveSourceCompletionIsStale` | src/slot_store.c:209-221 | the delete a move queues for its source never frees anything, whatever happens before its completion |
| `Storage.NvsBackend.SinkSave` | src/dm_nvs.c:278-336 | a save is queued in order, refused when too large, refused when four operations wait |
| `Storage.NvsBackend.WorkOne` | src/dm_nvs.c:196-274 | one worker iteration applies the oldest operation to flash and submits its completion, dropping it when four wait |
| `Completions.AwaitedUnlessDropped` | src/dm_nvs.c:196-274 | a leaving slot has its own delete queued or its outcome on the way; a step loses that exactly when the worker runs the delete while four completions wait |
| `Completions.DeletesComeToAnEnd` | src/dm_nvs.c:122-148 | after any run from boot without such a step, with nothing queued and nothing waiting, no slot is leaving: the pool holds exactly what is shown |
| `Completions.ReportsAreConserved` | src/dm_nvs.c:122-148 | over any run the outcomes of deletes and failed saves, in the order the worker ran them, are delivered or still waiting, each once, unless four were waiting |
| `Completions.DeliveryIsTold` | src/dm_machine.c:555-576 | from IDLE a delivered failed save and a delete still waited for are announced with their slot, at any level; from another state nothing is |
| `MacroMachine.Machine.Dispatch` | src/dm_machine.c:495-520 | commands the legality matrix ignores change nothing; the others do what the transition functions say to machine, store, queue, timer and notifications together |
| `MacroMachine.Machine.TypingFinished` | src/dm_machine.c:523-553 | state restored, timer re-armed for a pending mode, owed save queued last, its refusal spoken from the settled state |
| `MacroMachine.Machine.SlotAssign` | src/dm_machine.c:287-329 | the assign transition with its silent pre-delete, every rejection keeping the take |
| `MacroMachine.Machine.SlotDelete` | src/dm_machine.c:332-366 | the delete transition: deferred for NVS, immediate for RAM, refused when the queue is full |
| `MacroMachine.Machine.SlotMove` | src/dm_machine.c:369-446 | source selection, cancel, and the move with its silent pre-delete |
| `MacroMachine.Machine.DeliverAsync` | src/dm_machine.c:555-576 | a completion speaks only from IDLE and only for the three outcomes with a message |
| `MacroMachine.Machine.HandleCompletion` | src/dm_nvs.c:122-140 | one completion is applied to the store and then delivered to the machine |
| `MacroMachine.Machine.RecordEvent` | src/behaviors/behavior_dynamic_macro.c:716-723 | an event is appended, or the full draft ends the take through the machine |
| `MacroMachine.Machine.Take` | src/behaviors/behavior_dynamic_macro.c:531-558 | any step of the composed firmware taken on the running objects is the step of the state machine the run theorems are about |
| `SystemProofs.NextKeeps` | src/dm_machine.c:523-628 | every step keeps the run invariants: the parked state is settled, a selected move source and the slot owed a save hold macros, a playing slot is never leaving, flash will agree with RAM once the queue drains |
| `SystemTheorems.FlashEqualsRamAtRest` | src/dm_nvs.c:196-316 | over all interleavings, whenever the queue is empty and no save is owed, each NVS slot has exactly its shown macro in flash, or no entry when it reads empty, unless its latest storage request was refused after RAM had changed, or ran and failed and has not healed since |
| `Healing.FailedDeleteHealsIff` | src/slot_store.c:260-284 | when the completion of a failed delete brings a macro back, the slot stays excluded exactly when its entry had been spoiled (it was excluded when the delete was requested, its save failed, or its entry was erased since); otherwise flash will hold the macro |
| `Healing.AgreeingDeleteHeals` | src/slot_store.c:236-284 | ask for the delete of a slot that agrees with flash, let anything happen that does not spoil its entry: the failed delete leaves flash and RAM agreeing |
| `Healing.FailureLosesIff` | src/dm_nvs.c:196-274 | a failed operation leaves its slot excluded exactly when nothing queued behind it concerns the slot |
| `Healing.TypingKeepsViewsIff` | src/slot_store.c:260-284 | while a message types, a step changes what some slot shows exactly when it delivers the failure of a delete that is still waited for |
| `SystemTheorems.UnrefusedSlotsAgree` | src/dm_machine.c:523-553 | without failed flash operations, a slot never named by a queue-full notification agrees with flash at rest: nothing diverges silently |
| `SystemTheorems.NotificationsTellTheTruth` | src/dm_machine.c:424-445 | in every reachable state SAVED means the slot holds exactly the non-empty draft, MOVED that the destination holds what the source held and the source is empty and every notification names the mode its transition settles in (the fall-through of the move transition only ever sees success), DELETED that the slot reads empty; playing, its end, chaining, source selection and recording notifications and the empty-slot, full-chain and overflow refusals are likewise true of the store, TOO_LARGE that the draft of an assign or the source of a move exceeds the cap of the flash slot named, and SLOT_OCCUPIED that the slot holds a macro or the pool has no room for the draft |
| `SystemTheorems.ReachableStoresRefine` | src/slot_store.c:116-351 | in every reachable state every store operation refines the map of macros |
| `Refusals.RefusedAssignKeepsIff` | src/dm_machine.c:287-329 | an assign that does not announce SAVED keeps every stored macro exactly when no silent delete went ahead (the slot reads empty, is not auto-overwritten, or the queue refused the delete); otherwise only the occupant is gone |
| `Refusals.OccupiedIsTrueIff` | src/dm_machine.c:287-329 | when an assign announces SLOT_OCCUPIED the slot holds a macro afterwards exactly when it held one and is not auto-overwritten |
| `Refusals.RefusedMoveKeepsIff` | src/dm_machine.c:369-446 | a move that does not announce MOVED keeps every stored macro exactly when the occupied target was not silently deleted, or the empty target was refused before relocating; the moved macro itself is never lost, and a full delete queue is announced after it has moved in RAM |
| `SystemTheorems.PlayingSlotIsStable` | src/slot_store.c:276-283 | no step but the end of playback changes what the playing slot shows, and no delete completion can act on it |
| `SystemTheorems.PlaybackSeesOneMacro` | src/behaviors/behavior_dynamic_macro.c:343-372 | through any steps until playback ends the playing slot shows one and the same macro |
| `Performance.RunTied` | src/behaviors/behavior_dynamic_macro.c:308-320 | from boot, through any timer fires, foreign keys and steps of the firmware, emitter and store name the same playing slot, and one is named exactly while the machine plays |
| `Performance.CuesAreRuns` | src/behaviors/behavior_dynamic_macro.c:308-385 | what a performance does to the firmware is a legal run of it, each finishing fire being its end-of-playback step |
| `Performance.PerformanceIsMacroThenCaptured` | src/behaviors/behavior_dynamic_macro.c:308-385 | from the press of a slot key to the fire that ends playback, whatever fires, foreign keys and firmware steps come between: the non-marker events the slot showed at the press are raised in order, then every captured key, each marker pausing for its own time; the machine is idle and PLAY_FINISHED names the slot |
| `Performance.TakeCue` | src/behaviors/behavior_dynamic_macro.c:308-385 | the running emitter and machine together take each fire, key and step as that composition says, the start of playback included |
| `RoundTrip.DelaySurvives` | include/zmk-behavior-dynamic-macros/dm_event.h:51-80 | press the delay binding in a recording, stop, save into a free slot, play it to the end: where the marker stands playback pauses for the tap delay plus its milliseconds |
| `SystemTheorems.CrashSafeMove` | src/slot_store.c:181-224 | cut the queue anywhere after what was queued before an NVS-to-NVS move: flash holds the macro under source or destination, whether or not either enqueue was refused and whatever deletes did |
| `SystemTheorems.MovesAreCrashSafe` | src/slot_store.c:181-224 | the same after any run from boot, for a source whose latest storage request was neither refused nor failed |
| `SystemModes.WatchedUnlessSwallowed` | src/dm_machine.c:523-535 | one step keeps a pending mode timed, and the timer running only for one, exactly when it is not a timer firing while an erase hides that mode |
| `SystemModes.PendingModesExpire` | src/dm_machine.c:610-620 | in every run without auto-erase a resting pending mode has its timer running, firing it gives the mode up with a notification, and no timer runs for anything else |
| `SystemModes.SwallowedTimeoutStrandsMode` | src/dm_machine.c:594-616 | with auto-erase the promise fails: five steps from boot leave MOVE_PENDING resting with no timer |
| `SystemModes.ParkedStateIsSettled` | src/dm_machine.c:578-585 | if no erase begins while a cue types, the state parked by an erase is always a settled one |
| `SystemModes.CueParkedByErase` | src/dm_machine.c:578-585 | an erase that begins during a cue parks the typing state itself |
| `SystemModes.FeedbackLevelIsInvisible` | src/dm_feedback_pump.c:306-320 | a legal run in which the pump reports each cue done before the next input ends in the same machine, store, queue, flash, completions and notifications as the run of the same inputs with nothing typed |
| `SystemModes.NotificationsAnnounceTheirMode` | src/dm_machine.c:85-92 | the effective state read with each notification is the state the machine settles into once the cue has drained |
| `SystemModes.LostCueFreezes` | src/dm_machine.c:495-553 | only typing_finished leaves a typing state: without it, whatever storage, timers and erases do, no press changes anything and nothing is announced |
| `SystemModes.QueueFullCueIsTyping` | src/dm_machine.c:523-553 | a typing_finished whose owed save finds the queue full leaves the machine typing that cue |
| `Diagram.CommandsFollowDiagram` | src/dm_machine.c:33-60 | in every reachable state each command leads where the state diagram says: which states accept it, which mode it settles in, and on what store condition that depends |
| `Diagram.TakeIsSaved` | src/dm_machine.c:186-199 | from a recording that holds anything, STOP and the key of a free slot in which it fits, at any level, leave the slot showing exactly the take, SAVED announced and the machine idle; a flash slot has its save queued when there is room |
| `Diagram.KnobIsSaved` | src/dm_machine.c:248-258 | a knob press in IDLE queues its value behind what waits, or nothing when the queue is full, and touches nothing else stored |
| `Voices.MessagesSayWhatNotesSay` | src/dm_machine.c:85-101 | in every reachable step the messages handed to the pump are those its notifications go with, one for one and in order, and all name the slot the step is about |
| `Keymaps.KeyProducesItsCharacter` | src/dm_feedback_build.c:112-173 | on US, UK and FI the key that types a printable ASCII character produces that character, the nine AltGr characters of FI on their third level |
| `Render.TokenSizeIsLength` | src/dm_render.c:274-295 | the room requested for a token is exactly its length, at most 55 characters |
| `Render.DelaySizeIsLength` | src/dm_render.c:234-268 | the room requested for a delay token is its length exactly when the marker is not 0 ms; it is never less |
| `Render.RenderSlot` | src/dm_render.c:331-387 | one call shows exactly the walk from its cursor that fits the sink, dropping nothing, and reports completion and cursor |
| `Render.CharSink.EmitChar` | src/dm_query.c:27-32 | a sink with room appends the character (as a keystroke, for the ring), a full one drops it |
| `Render.WalkConserves` | include/zmk-behavior-dynamic-macros/dm_render.h:78-98 | a pause loses and repeats nothing: what was shown plus what is left is what was left before, and it happens only where the next unit does not fit |
| `Render.WalkCarriesModifiers` | include/zmk-behavior-dynamic-macros/dm_render.h:66-75 | the cursor at a pause carries the modifiers an uninterrupted walk would hold there |
| `Render.HeldIsDown` | src/dm_render.c:355-363 | the modifier state of a walk is, bit by bit, the modifier keys whose last event so far was a press |
| `Shown.EventShows` | src/dm_render.c:331-387 | a keyboard press with no modifier but shift down or carried shows the character the key makes, shifted exactly when a shift is; any other press shows the token naming exactly its modifiers; a marker its delay; releases and modifiers nothing |
| `Shown.PreviewIsPieces` | src/dm_render.c:331-387 | a preview is what its events show, in order, and nothing else |
| `Shown.TokenTellsApart` | src/dm_render.c:297-329 | two tokens read the same only if their modifiers and their action names do |
| `Shown.DelayShowsItsTime` | src/dm_render.c:241-268 | a delay token is D and the milliseconds in digits, in the brackets of its layout |
| `Render.ResumableIsOneShot` | src/dm_render.c:331-387 | whatever the refusals, the pieces of a completed resumed walk join to the one-shot rendering, and with room for one unit each time it completes |
| `Previews.PreviewString` | src/dm_query.c:39-64 | the buffer is NUL-terminated within its length and holds the preview, or the count text clipped to it |
| `Previews.QueryIsHonestPrefix` | src/dm_query.c:51-64 | the query string is the full rendering cut between two units, and only where the next unit does not fit |
| `Previews.RetypedPreviewIsFixedPoint` | src/dm_feedback_build.c:573-589 | rendering the keystrokes typed for any preview gives that preview, on US and UK always, on FI exactly when no character of it needs AltGr |
| `Messages.ScaffoldingFits` | src/dm_feedback_build.c:432-613 | the fixed text of every message and what closes its preview fit the 63 entries of the ring, with separators of at most 53 characters |
| `Words.MessageNamesSlot` | src/dm_feedback_build.c:432-613 | a message about a slot names it, in every style and layout, MOVED source and destination in that order |
| `Words.SlotRefTellsApart` | src/dm_feedback_build.c:303-312 | a slot name says class and number, and no two slots share one |
| `Words.HeaderCounts` | src/dm_feedback_pump.c:117-134 | a status header opens with how many slots are filled, of how many |
| `Words.LineOpens` | src/dm_feedback_build.c:422-430 | a status line opens with the header separator before the first line and the slot separator before the others, then the label that names its slot |
| `Words.LineCounts` | src/dm_feedback_build.c:573-613 | a status line without a preview says how many events its slot shows, and the close of one with a preview does |
| `Words.QueryCounts` | src/dm_query.c:39-50 | the query without typing says how many events there are |
| `Rings.MaskIsWrap` | src/dm_feedback_pump.c:45-60 | on byte cursors below 64 the bit mask & 63 advances and counts exactly as the modular wrap does |
| `Rings.Ring.Push` | include/zmk-behavior-dynamic-macros/dm_playback_buffer.h:77-84 | a ring takes one entry at its end unless only the reserved cell is free; it never overwrites |
| `Rings.Ring.Pop` | include/zmk-behavior-dynamic-macros/dm_playback_buffer.h:89-96 | a ring gives back its oldest entry and keeps the rest in order |
| `FeedbackPump.Feedback.Begin` | src/dm_feedback_pump.c:306-361 | starting a message gates on level or status detail and fills a fresh ring |
| `FeedbackPump.Feedback.EmitIteration` | src/dm_feedback_pump.c:243-292 | one timer fire refills an emptied ring from preview or suffix, then raises one press or release, or finishes |
| `FeedbackPump.Feedback.AdvanceStatus` | src/dm_feedback_pump.c:151-192 | the next listed slot is found and its line started, or the sequence is over |
| `FeedbackPump.Feedback.OnDrained` | src/dm_feedback_pump.c:195-233 | a drained erase batch, status line or message continues or reports as it should |
| `FeedbackPump.Feedback.RunEraseWork` | src/dm_feedback_pump.c:443-482 | a due erase parks the machine and emits one batch of at most 63 backspaces, keeping the rest |
| `FeedbackPump.Feedback.Cancel` | src/dm_feedback_pump.c:486-506 | a scheduled erase is unscheduled and a running one aborted |
| `FeedbackPump.Feedback.Abort` | src/dm_feedback_pump.c:514-540 | a live status dump or SAVED preview is dropped and reported finished; any other message is left alone |
| `PumpTheorems.StreamingIsDirect` | src/dm_feedback_pump.c:151-292 | under any number of timer fires, over a store that may change as long as its slots show the same, the raised halves are a prefix of the presses and releases of the directly written text (header, each listed slot once in ascending order, preview, suffix), nothing stalls, and on completion all of it has been raised and typing_finished reported once |
| `PumpTheorems.DumpListsSlots` | src/dm_feedback_pump.c:151-192 | a status dump has one line for each slot that shows a macro, at full detail for each slot, in ascending order, and no other |
| `PumpTheorems.EraseIffAsked` | src/dm_feedback_pump.c:211-233 | a message schedules an erase exactly when the knob is on, it is no status dump and it left something visible |
| `PumpTheorems.OnlyLongMessagesAbort` | src/dm_feedback_pump.c:341-346 | an interrupting key aborts a message exactly while it types and only a status dump or a SAVED preview |
| `PumpTheorems.LevelsNest` | src/dm_feedback_pump.c:306-320 | a higher feedback level lets through all that a lower one does; which kinds each level adds |
| `PumpTheorems.PreviewsWhereAsked` | src/dm_feedback_pump.c:331-361 | SAVED shows the macro exactly at the highest level, a status line exactly for a filled slot at the detail that asks for it |
| `PumpTheorems.AutoEraseConserves` | src/dm_feedback_pump.c:194-233 | the backspaces over all batches number exactly the visible keystrokes of the message, the erasure completes, and the machine is back in the state the first batch found |
| `PumpTheorems.BatchesReturnToParked` | src/dm_machine.c:578-608 | however many batches, the erase reports restore the state found by the first |
| `PumpTheorems.CancelledIsInert` | src/dm_feedback_pump.c:486-537 | after a cancel no stale timer fire raises or reports anything |
| `PumpTheorems.CancelledEraseNeverRuns` | src/dm_feedback_pump.c:486-506 | a key that comes before a due erase has begun cancels it: no backspace and no report ever |
| `PumpTheorems.PendingEraseKillsMessage` | src/dm_feedback_pump.c:323-330 | an erase that runs in the middle of a message spares it exactly when no character has been counted; otherwise typing_finished is never reported, whatever fires, erase work and interrupting keys follow |
| `PumpTheorems.EraseCatchesNextMessage` | src/dm_feedback_pump.c:323-361 | that state is reached: begin any message that opens with a visible character while the erase of the last one is due, and let one key go out |
| `PumpTheorems.QueueFullCueDies` | src/dm_feedback_pump.c:217-233 | the queue-full cue begun inside the typing_finished of any erasable message never finishes when the erase delay ends after its first key |
| `Playback.Emitter.WorkOnce` | src/behaviors/behavior_dynamic_macro.c:308-385 | one fire emits the next macro event, else the oldest captured event, else finishes: store released, machine settled, PLAY_FINISHED announced, in that order |
| `Playback.Emitter.OnForeign` | src/behaviors/behavior_dynamic_macro.c:855-925 | a foreign event is captured, passed live or lost exactly as the capture rule says, and passed live when nothing plays |
| `Playback.PlaybackIsMacroThenCaptured` | src/behaviors/behavior_dynamic_macro.c:343-385 | however keys arrive, a finished playback has sent the non-marker events in order and then every captured event in arrival order, each once, with the tap delay plus marker duration after each |
| `Playback.PausesAreKept` | src/behaviors/behavior_dynamic_macro.c:366-381 | in a finished playback each marker pauses for the tap delay plus its own milliseconds and every other event, captured ones included, for the tap delay |
| `Playback.PlaybackTakes` | src/behaviors/behavior_dynamic_macro.c:366-381 | the time asked for is the tap delay per event plus the milliseconds of all markers |
| `Playback.CapturedAreForeign` | src/behaviors/behavior_dynamic_macro.c:883-921 | what is captured are the foreign events themselves, own modifiers included, in the order they came |
| `Playback.EntriesCount` | src/behaviors/behavior_dynamic_macro.c:873-879 | a live press that finds a free entry takes one for its key, the release that finds one gives it back, and nothing else changes how many a key holds |
| `Playback.KeyOfTellsApart` | src/behaviors/behavior_dynamic_macro.c:865 | two events count as one key exactly when page and keycode agree |
| `Playback.FinishesOnTime` | include/zmk-behavior-dynamic-macros/dm_playback_emit.h:75-92 | with no new keys playback ends after exactly the rest of the macro, the captured events, and one more step |
| `Playback.NoPressIsLost` | include/zmk-behavior-dynamic-macros/dm_playback_emit.h:38-48 | every foreign press, while a macro plays or after it, is captured or passed live, none is lost |
| `Playback.ReleaseLostIff` | src/behaviors/behavior_dynamic_macro.c:871-899 | a release is lost exactly when the ring is full and its press is not remembered as live |
| `Playback.HeadroomIsNotReserved` | include/zmk-behavior-dynamic-macros/dm_kconfig.h:54-74 | in every build any typing captured whole can fill the ring, headroom included, and then the release of a key it left down is lost |
| `Playback.SharedFateIff` | src/behaviors/behavior_dynamic_macro.c:855-925 | a press made during playback and its release, of a nonzero key, with any fires, other keys and perhaps the end of playback between them, are both captured or both live exactly when: it still plays, the press found room, no entry held its key and the release finds room; or it still plays, the press found none and an entry held its key or was free; or it is over and the press found no room |
| `Playback.TapSharesFateIff` | src/behaviors/behavior_dynamic_macro.c:855-925 | with nothing between them the condition is on the state before the press: two free cells and no entry for the key, or no room and an entry free or its own |
| `Playback.HeldPastEndSplitsPair` | src/behaviors/behavior_dynamic_macro.c:866-871 | a captured key held past the end of playback has its release passed live; the two stay in order, since by then the ring is empty and the press was raised |
| `Playback.HeldPastEndIsReached` | src/behaviors/behavior_dynamic_macro.c:866-871 | from any fresh playback: press a key and let the timer fire for the macro and two times more |
| `Playback.StaleEntrySplitsPair` | src/behaviors/behavior_dynamic_macro.c:871-922 | a live press remembered from an earlier playback makes a later captured press and its release part ways |
| `Playback.StaleEntryIsReached` | src/behaviors/behavior_dynamic_macro.c:910-922 | from the first playback of all: fill the ring, press once more, play to the end, and the next playback begins with that entry |
| `Playback.TakenEntriesSplitPair` | src/behaviors/behavior_dynamic_macro.c:910-922 | with all entries taken a press on a full ring goes live unremembered, and one fire later its release is captured |
| `Playback.TakenEntriesAreReached` | src/behaviors/behavior_dynamic_macro.c:910-922 | that state is reached in the first playback of all |
| `Recorder.Listener.OnKey` | src/behaviors/behavior_dynamic_macro.c:927-976 | one key event is folded, deferred, flushed as a lone tap or dropped as the filter says |
| `Recorder.Listener.ReleaseModifier` | src/behaviors/behavior_dynamic_macro.c:763-778 | the oldest deferred press of the released modifier is freed, and flushed with its release only when no key intervened |
| `Recorder.Listener.ResetPending` | src/behaviors/behavior_dynamic_macro.c:725-729 | every deferred modifier is forgotten |
| `Recorder.RecBeginsTake` | src/dm_machine.c:166-184 | REC, in every state that accepts it and at every feedback level, begins an orderly take with an empty draft |
| `Recorder.TakesStayOrderly` | src/behaviors/behavior_dynamic_macro.c:716-778 | in a take not ended by overflow that chains only macros holding no modifier down, every recorded bare modifier is half of an adjacent press and release of one key, and the other events are exactly those heard, inserted and chained, in order |
| `Transcripts.TakeIsWritten` | src/behaviors/behavior_dynamic_macro.c:927-976 | for any keys, delays and chaining, overflow included, the draft grows by what each input writes: a key with its own fields and exactly its own and the reported modifiers, a lone tap as its own press and release, a delay as its milliseconds, a macro whole or not at all |
| `Transcripts.DeferredPressesWereHeard` | src/behaviors/behavior_dynamic_macro.c:746-756 | every press a tap can flush is one that was heard in the take, its own modifiers kept |
| `Recorder.ChainKeepsOrderIff` | src/slot_store.c:304-317 | a chain leaves the take in order exactly when the chained macro holds no modifier down |
| `Recorder.OverflowLeavesModifierHeld` | src/behaviors/behavior_dynamic_macro.c:763-778 | a release leaves a modifier held in the draft exactly when it flushes a lone tap into a draft with one event of room |
| `Recorder.LoneTapIsKept` | src/behaviors/behavior_dynamic_macro.c:927-951 | a modifier tap with nothing in between is recorded, with a key in between only the key is |
| `Recorder.ReleaseFreesEntry` | src/behaviors/behavior_dynamic_macro.c:763-773 | a released modifier gives back the oldest entry of its key and no other, kept or dropped |
| `Recorder.FullBufferForgets` | src/behaviors/behavior_dynamic_macro.c:743-756 | with all entries taken a modifier press is forgotten |
| `Recordings.ActsAreRuns` | src/behaviors/behavior_dynamic_macro.c:563-645 | any run of key events, delay presses, bindings and background steps is a legal run of the composed firmware, each key event being none, one or two recorded events |
| `Recordings.TidyUnlessStranded` | src/behaviors/behavior_dynamic_macro.c:716-778 | one step of any kind keeps the draft and every slot, leaving ones included, free of held modifiers exactly when it is not the release of a lone tap with room for one event |
| `Recordings.MacrosStayTidy` | src/behaviors/behavior_dynamic_macro.c:602-607 | over any run without such a release, from tidy flash and any draft without a held modifier, the draft and every slot stay free of one |
| `Recordings.CutTapSpreads` | src/slot_store.c:304-317 | with one: saved to a free slot and chained into a fresh take, the cut tap leaves that take holding a modifier with no overflow of its own |
| `Codec.BuildValue` | src/dm_nvs.c:228-243 | the static buffer holds header and events in the stored layout |
| `Codec.DecodeInvertsEncode` | src/dm_nvs.c:452-486 | decoding an encoded slot gives back its events |
| `Codec.EncodeInvertsDecode` | src/dm_nvs.c:452-486 | a value that decodes is within the cap and its event bytes are those of its events |
| `Codec.StoredLayout` | src/dm_nvs.c:35-41 | version 0xD1, three zero bytes, the count in four bytes, then eight bytes an event, least significant byte first |
| `Codec.ParseIndex` | src/dm_nvs.c:396-408 | the digit loop reads a number below the slot count or gives up |
| `Codec.ParseIsValue` | src/dm_nvs.c:396-408 | the digit loop accepts exactly digits that write a number below the slot count, and reads that number |
| `Codec.OnlyOwnEntries` | src/dm_nvs.c:378-410 | an entry of another device, or none of a slot, is refused and the store untouched |
| `Codec.ParseInvertsPrint` | src/dm_nvs.c:389-410 | parse_slot inverts the printed slot index |
| `Codec.KeyParsesBackIff` | src/dm_nvs.c:152-154 | a settings key is read back as its slot exactly when the printed key was not cut off at 63 characters |
| `Codec.KeysDifferIff` | src/dm_nvs.c:152-154 | flash slots have different settings keys exactly when no printed key is cut off, or there is at most one slot |
| `Codec.WorkMirrors` | src/dm_nvs.c:196-274 | with different keys the worker keeps flash by slot and settings by key in step |
| `Codec.SharedKeyOverwrites` | src/dm_nvs.c:152-154 | with two slots whose keys agree, saving one overwrites the entry of the other |
| `Codec.SettingsSet` | src/dm_nvs.c:412-495 | the handler ignores foreign and RAM keys, rejects short or oversized values, deletes the printed key of an old-version slot from the settings and loads the rest |
| `Codec.ClearingRemovesTheEntry` | src/dm_nvs.c:464-471 | for a slot whose key was not cut off, an old-version entry is the one deleted, the store untouched |
| `Codec.ReloadRebuilds` | src/slot_store.c:353-383 | resetting a store and restoring flash that agrees with an earlier state, in any order, loads every entry and rebuilds exactly its NVS map, when the key of each stored slot was not cut off |
| `Codec.AllLoadIffTheyFit` | src/slot_store.c:353-383 | restoring any flash the worker could leave, in any order, shows in each slot its entry or nothing; all entries load exactly when together they fit the pool, and then every slot shows its entry |
| `Reboot.PowerCycleKeepsMacros` | src/dm_nvs.c:412-495 | a power cycle at rest, after any run in which no slot was left refused or failed, loads everything, brings every NVS slot back as it was, and leaves the firmware booted as the run theorems demand |
| `Reboot.PowerCutRestores` | src/dm_nvs.c:412-495 | a power cut at any point of any run: each slot comes back as its entry or empty, all entries load exactly when they fit the pool, and if they do the firmware has booted and every slot with nothing on its way, refused or failed is back as it was |
| `Reboot.CutMoveLoadsIff` | src/slot_store.c:181-224 | a move cut between its save and its delete leaves the macro under both keys, and all entries load exactly when the pool has room for the second copy |
| `Reboot.SettingsMirrorFlash` | src/dm_nvs.c:196-274 | over whole runs flash by slot is the settings by key, for a device whose keys are not cut off |

## Left out

- Generation stamps are unbounded numbers: wrap-around of the 32-bit stamp is not modelled.
- The store without a sink (persistence compiled out) is covered by builds with no NVS slots; a store with NVS slots and no sink is not modelled.
- The result codes of `dm_machine_command`: the shell ignores them, so transitions return nothing.
- The values a knob press saves are arbitrary, and restoring knob entries at boot is not modelled: only their place in the queue matters here.
- `DM_TEST_RELOAD` as a live step, since it resets stamps: reset and restore appear only in the reload theorems.
- Zephyr timers, threads, message queues and the settings backend: bounded sequences, atomic steps, and a settings call that succeeds or fails.
- `DM_TOG` and the default duration of `DM_DELAY`: the binding resolves both before anything modelled here, the first to REC or STP by the machine's state.
- The live-interleaving playback used when the capture buffer is compiled out, and the swallowed releases of interrupted outputs.
- Recording suppression: while the pump or the emitter raises events, the listener is simply not stepped.
- Targets that store multi-byte fields most significant byte first: the stored layout here is least significant byte first.
- Keymap tables are lookups by keycode; the linear scan over their rows (keycodes are distinct) is not modelled.
- Re-typing on DE and FR, whose letter maps are not inverse to the renderer's.
- The keys a recording hears while a chain cue types: they are suppressed in the firmware and absent from the input stream here.
- `is_mod` and the live modifier report belong to ZMK: the first is read as keycodes 0xE0 to 0xE7 of the keyboard page, the second is an arbitrary byte.
- PumpTheorems.StreamingIsDirect: does not cover a message during which a failed delete brings a macro back; that is the only step that changes what a slot shows meanwhile (`Healing.TypingKeepsViewsIff`).
- Keymap validation macros, behavior metadata, device lookup, the widget event mapping and the `dm_get_*` wrappers.
