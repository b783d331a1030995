# Web-SyncPlay: a verified model

Web-SyncPlay keeps many browsers on one room clock and streams byte ranges of a local file from
one browser to the others. This project models the parts of it that hold state or arithmetic
worth a proof, in Dafny 4.11, and proves what their code and documentation promise. Times are
`real`s, numbers that JavaScript may make infinite or NaN are the datatype `Js.Num`, exceptions
and the reactions of players, networks and schedulers are nondeterministic choices.

| part | files |
|---|---|
| room clock, drift, seek ceiling, catch-up rate | `js.dfy`, `playback_sync.dfy`, `catch_up.dfy` |
| the player and writes to it | `apply_playback_sync.dfy` |
| seek and pause confirmation of iframe players | `native_sync.dfy` |
| the sync engine, its timers and host, runs of it | `sync_host.dfy`, `playback_engine.dfy`, `catch_up_engine.dfy`, `engine_runs.dfy` |
| local-media blocks over the SFU and over WebRTC | `block_protocol.dfy`, `sfu_transport.dfy`, `sfu_reassembly.dfy`, `webrtc_transport.dfy` |
| audio skew and the delay graph | `audio_skew.dfy`, `audio_delay_graph.dfy`, `audio_conservation.dfy`, `audio_exact.dfy` |
| room state merge and the presence coalescer | `room_state_merge.dfy`, `presence_coalescer.dfy` |
| the server clock estimate | `server_clock.dfy` |
| the server's SFU registry | `sfu_registry.dfy`, `sfu_teardown.dfy` |
| block cache and playlist cache | `lru_map.dfy`, `block_cache.dfy`, `block_cache_runs.dfy`, `hls_rewrite_cache.dfy` |
| HLS playlist rewriting (RFC 8216) | `hls_text.dfy`, `hls_spans.dfy`, `hls_rewrite.dfy` |
| action log and room repair | `room_log.dfy`, `repair.dfy`, `room_security.dfy`, `room_repair.dfy` |

Objects that the source changes in place are classes (`Player`, `NativeSyncTracker`, `Engine`,
`ViewerSlot`, `DelayGraph`, `Coalescer`, `Clock`, `Runtime`, `Slot`, `Store`, `Room`); each of
their methods is tied to a function of the old state, and the laws are proved about those
functions over whole runs.

`dafny verify dfyconfig.toml` checks the whole project.

## What the proofs turned up

Places where the code does something other than its comments or a reader would expect. Each is
a lemma of its own, with the exact condition where there is one.

- Catch-up closes every lag without stepping over the target exactly at room rates up to 1.75
  or from 2.3 up (`CatchUp.CatchUpClosesExactly`). It always speeds up, so nothing is claimed
  for a player ahead of the room.
- An unforced apply seeks from 0.8 s of drift on even when the round trip has raised the soft
  threshold above it (`EngineRuns.SlowNetworkSeeksBelowSoft`).
- The force-seek budget of an anchor does not cap the playhead writes of stalls: each is made
  whenever the playhead is off the target (`EngineRuns.SpentBudgetStillSeeks`), and only time
  bounds their number, one per 3.3 s (`EngineRuns.StallWritesIff`).
- A near-room sample survives far ones (`NativeSync.FarSamplesKeepNearRoom`).
- Media shorter than 46 s can be mistaken for the buffered window
  (`PlaybackSync.BufferingNeverMattersIff`).
- Once underrun silence has been emitted the audio graph never leaves its negative path
  (`AudioExact.QueueBounded`). Its capacity trim can fire at every sample rate but those within
  a quarter hertz of a whole kilohertz up to 72 (`AudioExact.TrimsExactlyWhen`): at 44.1 kHz,
  for one, the rounding of single changes adds up, though not before tens of thousands of them
  (`AudioExact.QueueBoundedAtAnyRate`).
- The structural part of a snapshot is not gated by its revision
  (`RoomStateMerge.StructureIsNotGated`), and a snapshot does not commute with a waiting presence
  batch (`PresenceCoalescer.SnapshotCommutesIff`).
- A schedule that calls back synchronously makes the coalescer flush once and never again
  (`PresenceCoalescer.FirstSynchronousBatch`).
- A wrong clock seed is sure to be corrected up to the outlier gate less half a round trip
  (`ServerClock.AlwaysCorrectedIff`) and beyond correction from the gate plus half a round trip
  on (`ServerClock.NeverCorrectedIff`); in between it depends on the stamps.
- Closing the newest SFU provider does not bring back an older one that is still open
  (`SfuTeardown.LatestProducerWins`, `SfuTeardown.NoFallbackToSuperseded`).
- After an invalidation a finishing old fetch takes the slot of the new one, so that a further
  one may start, and an invalidated medium comes back with the next store of a fetch under way
  for it (`BlockCacheRuns.SlotIsLostIff`, `BlockCacheRuns.RequestStartsAnotherIff`,
  `BlockCacheRuns.MediumStaysClearIff`).
- The second attribute pass reads what the first has written: a double-quoted attribute inside
  a single-quoted one, or a double-quoted value that opens one, makes the rewriter look up a
  reference that was never collected (`HlsRewrite.NestedAttributeIsLookedUpIff`,
  `HlsRewrite.CrossingAttributeIsLookedUpIff`).
- The rewriter keeps the first characters of a URL line with more trailing than leading spaces
  (`HlsRewrite.UrlLineIsReplacedIff`).
- An empty playlist, an invalid room id or an infinite joining time is reported by every repair
  (`RoomRepair.RepairIsIdempotent`), dropping a malformed playlist element shifts the selection
  unless nothing well typed follows (`RoomRepair.SelectionIsKeptIff`), and a join password whose
  secret is truthy but no text is turned off without a finding
  (`RoomSecurity.PasswordLostInSilenceIff`).
- An action log within its limit whose entries arrive out of order keeps less than one pruning
  would, exactly when an entry still young at the end is over an hour older than a later one
  (`RoomLog.OnlineEqualsOfflineIff`; `RoomLog.OnlineEqualsOfflineExactly` for any length).

## Model

| member | source | states |
|---|---|---|
| `PlaybackSync.CeilingRespectsTrustedBounds` | src/client/player/playback-sync.ts:158-198 | A seek ceiling exists exactly when a trusted duration or hint does, or the media is live with a seekable end; a trusted bound is never cut short by a small buffered window |
| `PlaybackSync.DriftIgnoresBufferedWindow` | src/client/player/playback-sync.ts:158-258 | With nothing trusted about the end of media that is not live the measured drift is the plain distance to the room clock, whatever is buffered; under a trusted end no seekable window up to it changes drift or target |
| `PlaybackSync.TrustedForEveryWindowIff` | src/client/player/playback-sync.ts:112-156 | The durations that no seekable window can discredit are exactly those of at least 46 s |
| `PlaybackSync.BufferingNeverMattersIff` | src/client/player/playback-sync.ts:158-258 | For a video on demand of known duration without a hint no buffered window ever changes the measured drift, for all playheads and clocks, if and only if it lasts at least 46 s |
| `PlaybackSync.TargetHasNoDrift` | src/client/player/playback-sync.ts:209-258 | For all durations, hints, seekable ends and live flags the clamped target itself has drift 0 and is beyond no threshold |
| `PlaybackSync.SeekTestAgreesWithDrift` | src/client/player/playback-sync.ts:93-110 | The seek test against the clamped target and the measured drift agree, except exactly for a playhead past the ceiling while the room clock itself is close |
| `PlaybackSync.ExpectedIsLipschitz` | src/client/player/playback-sync.ts:82-91 | Two readings of the room clock differ by at most the room rate times the difference of the clock readings |
| `PlaybackSync.ClockRunsWhilePlaying` | src/client/player/playback-sync.ts:82-91 | At its anchor time the room clock shows the anchor; a paused clock reads the same at all times, a playing one gains exactly the room rate times the time passed |
| `PlaybackSync.ReanchoringKeepsTheClock` | src/client/player/playback-sync.ts:82-91 | Anchoring anew at any moment to what the clock shows then leaves every later reading unchanged |
| `PlaybackSync.PauseHoldsTheClock` | src/client/player/playback-sync.ts:82-91 | Pausing for any while and resuming shifts the clock by exactly that while |
| `CatchUp.BoostIsBounded` | src/client/player/playback-sync.ts:62-80 | A boost exists exactly inside the band at a positive rate, is 1.4 times the room rate capped at 3, and exceeds the room rate exactly for room rates below 3 |
| `CatchUp.BoostedCloses` | src/client/player/playback-sync-engine.ts:914-974 | A boosted lagging player reaches the clear band after exactly as many one-second ticks as its lag takes, with no seek and without stepping past it |
| `CatchUp.ClosesFromBand` | src/client/player/playback-sync-engine.ts:914-974 | At a safe room rate a lag anywhere in (0.8, 3] is closed and the room rate restored after the computed number of ticks, and after no fewer |
| `CatchUp.CatchUpClosesExactly` | src/client/player/playback-sync.ts:62-80 | Every lag in the band is closed smoothly if and only if the room rate is at most 1.75 or at least 2.3 (and below 3) |
| `CatchUp.Overshoots` | src/client/player/playback-sync.ts:62-80 | At every unsafe rate a concrete lag for which no number of ticks closes smoothly |
| `CatchUp.SafeRates` | src/client/player/playback-sync.ts:62-80 | The safe rates are exactly those at which one boosted second closes no more than the width of the clear band |
| `ApplyPlaybackSync.ApplyClock` | src/client/player/apply-playback-sync.ts:191-297 | Rate first, then at most one playhead write, which goes to the clamped target and happens exactly when the old playhead is beyond the threshold; an obedient player ends on it |
| `ApplyPlaybackSync.EchoIff` | src/client/player/apply-playback-sync.ts:87-117 | A wrapper echo is a seek test that would move the element and is content with the wrapper |
| `ApplyPlaybackSync.TheElementDecides` | src/client/player/apply-playback-sync.ts:49-57 | Seek test and play state are about the element when there is one with a time, so an echoing wrapper never hides a distance; else about the wrapper |
| `ApplyPlaybackSync.ApplyTwice` | src/client/player/apply-playback-sync.ts:191-297 | An obedient player has drift 0 right after a seek, whatever the bounds, and a second apply writes no playhead |
| `ApplyPlaybackSync.NudgeTransport` | src/client/player/apply-playback-sync.ts:369-436 | A pause is always asked for, of wrapper and element; play only of a paused player, once or, if the element stays paused, twice; an obedient player obeys |
| `ApplyPlaybackSync.EscalateSeekWhilePaused` | src/client/player/apply-playback-sync.ts:321-367 | Play, one write of the target, pause: nothing is played unmuted, the mute flag is restored and an obedient element ends paused on the target |
| `NativeSync.NativeSyncTracker.NoteSeekWrite` | src/client/player/native-provider-sync.ts:150-175 | Takes the specified step: a retry at the same anchor keeps origin, sample and failures, a new anchor starts a fresh probe |
| `NativeSync.NativeSyncTracker.Evaluate` | src/client/player/native-provider-sync.ts:176-255 | Takes the specified step and verdict for every reading, and keeps the failure bound |
| `NativeSync.NativeSyncTracker.SampleQuiescence` | src/client/player/native-provider-sync.ts:256-291 | Takes the specified pause-sampling step and verdict |
| `NativeSync.NativeSyncTracker.ClaimPauseSeek` | src/client/player/native-provider-sync.ts:293-299 | True exactly when the key is not the one claimed last |
| `NativeSync.FrozenNeverConfirmed` | src/client/player/native-provider-sync.ts:176-235 | In a playing room a playhead whose samples never change is confirmed in no run, however seek writes, anchors, drift readings and pause samples interleave |
| `NativeSync.ProbeFailuresBounded` | src/client/player/native-provider-sync.ts:193-201 | In every run a live probe has fewer than six failures, and without a probe nothing is counted |
| `NativeSync.ReleasedOnSeventh` | src/client/player/native-provider-sync.ts:202-235 | A frozen playhead near the room is held for six spaced samples and released on exactly the seventh |
| `NativeSync.FarSamplesKeepNearRoom` | src/client/player/native-provider-sync.ts:193-235 | A near-room sample survives any number of far ones: the next near sample that has moved is confirmed at once if and only if the far samples have not used up the failures |
| `NativeSync.QuiescentWithinThirteen` | src/client/player/native-provider-sync.ts:256-291 | Thirteen judged pause samples after a reset always contain a quiescent verdict |
| `NativeSync.MovingSamples` | src/client/player/native-provider-sync.ts:256-291 | Twelve samples that each moved or found the wrapper playing are not enough, so thirteen is exact |
| `NativeSync.SettledIff` | src/client/player/native-provider-sync.ts:256-291 | After a reset and any run of pause samples the pause is settled if and only if the last judged sample stood still with the wrapper not playing, or is one of twelve or more in a row that did not |
| `NativeSync.RetriesKeepCounting` | src/client/player/native-provider-sync.ts:150-201 | Retries of one anchor keep origin and failures: however writes and far readings alternate, exactly the sixth far reading releases the probe |
| `NativeSync.OnlyJudgedSamplesCount` | src/client/player/native-provider-sync.ts:256-291 | From every run, pause samples without a time or too close to the last judged one may be left out: same state, and the same answer to whether the pause is ever found quiescent |
| `SyncHost.Scheduler.SetAll` | src/client/player/playback-sync-engine.ts:1039-1046 | A burst arms one timeout per delay under fresh consecutive ids and leaves every other timeout as it was |
| `SyncHost.Scheduler.ClearAll` | src/client/player/playback-sync-engine.ts:406-411 | Exactly the named timeouts are no longer armed |
| `SyncHost.HintSetsTheCeiling` | src/client/player/playback-sync-engine.ts:237-246 | An infinite duration hint marks live media with the seekable end as ceiling; a finite one stands in for an unknown duration |
| `PlaybackEngine.TryConsume` | src/client/player/playback-sync-engine.ts:73-90 | A budget consumed on one anchor never exceeds its maximum, never falls on the same anchor and starts over on another |
| `PlaybackEngine.Engine.constructor` | src/client/player/playback-sync-engine.ts:206-233 | A new engine is idle, unheld, with no timers, and satisfies the invariant |
| `PlaybackEngine.Engine.ClearCatchUpRate` | src/client/player/playback-sync-engine.ts:256-266 | Afterwards no catch-up rate is in force; a player told to boost is told the room rate |
| `PlaybackEngine.Engine.ActivateCatchUpRate` | src/client/player/playback-sync-engine.ts:335-351 | The boost is recorded and written exactly when the drift is in the band |
| `PlaybackEngine.Engine.ShouldEscalateStall` | src/client/player/playback-sync-engine.ts:293-333 | Judges as specified: escalates only for a playing lag beyond the soft threshold whose playhead advanced less than 0.15 s over at least 800 ms, not within 2.5 s of a seek |
| `PlaybackEngine.Engine.SettleNativePause` | src/client/player/playback-sync-engine.ts:436-450 | A paused iframe is sampled as specified and called quiescent only once its pause has settled; it is told to pause again exactly when it is not |
| `PlaybackEngine.Engine.RunTransportTick` | src/client/player/playback-sync-engine.ts:473-514 | A nudge timer does nothing once the authority has changed its mind; else an element that does not follow is asked again, and a paused iframe sampled first |
| `PlaybackEngine.Engine.ScheduleTransportBurst` | src/client/player/playback-sync-engine.ts:473-514 | One burst of nudges replaces the last; none of play while the authority is paused |
| `PlaybackEngine.Engine.ChooseThreshold` | src/client/player/playback-sync-engine.ts:516-556 | Duration gate, late-join snap, re-apply and the one-off pause seek decide the starting threshold, each exactly under its condition; the pause seek is claimed exactly when nothing else forces the apply |
| `PlaybackEngine.Engine.WriteClock` | src/client/player/playback-sync-engine.ts:557-630 | The playhead write of every apply, as the seek test of its planned threshold at the time of the decision; its rate for unforced ones |
| `PlaybackEngine.Engine.ConfirmSeek` | src/client/player/playback-sync-engine.ts:631-678 | A written seek is noted with the tracker as specified and stays pending; otherwise the outstanding one is judged on the drift just measured |
| `PlaybackEngine.Engine.UpdateCatchUp` | src/client/player/playback-sync-engine.ts:755-777 | The rate override after an apply, in every case: none for an iframe, a held seek, a paused room or a closed gap, the boost where the rate closes the gap, none again when the gap is unknown or too far; the player is told |
| `PlaybackEngine.Engine.MeasureAndEscalate` | src/client/player/playback-sync-engine.ts:679-707 | The target is written again, between a muted play and a pause, exactly when a paused HTML5 element has ignored its seek and the budget of the anchor grants it |
| `PlaybackEngine.Engine.ConfirmAndMeasure` | src/client/player/playback-sync-engine.ts:626-707 | After it a write is reported and awaits confirmation, an echo is recognised, and a paused element still off after one write had no escalation left |
| `PlaybackEngine.Engine.ReconcileTransport` | src/client/player/playback-sync-engine.ts:708-730 | An element not in the room's play state is asked for it, one that is, is left alone; a nudge burst is armed for a paused room and for an element that does not play, and dropped otherwise |
| `PlaybackEngine.Engine.JudgeConvergence` | src/client/player/playback-sync-engine.ts:731-754 | Nothing is left pending exactly when gate, confirmation, echo, drift and play state agree with the room and a paused iframe, sampled here, is at rest; phase and late-join snap follow |
| `PlaybackEngine.Engine.FollowUp` | src/client/player/playback-sync-engine.ts:755-791 | A verify burst is armed exactly when something is pending, nothing held, no burst in flight and the apply was a snap, a re-apply, an echo, a write or left drift |
| `PlaybackEngine.Engine.ApplyRoomClock` | src/client/player/playback-sync-engine.ts:516-797 | Every apply that does not throw writes exactly what the seek test of its starting threshold demands, awaits confirmation of it, puts transport, timers and boost in order, and escalates a paused element; pending means verifying, nothing pending converged at a moment during the call, and everything in place leaves nothing pending; a throw keeps the snapshot pending |
| `PlaybackEngine.Engine.TryForceSeek` | src/client/player/playback-sync-engine.ts:799-841 | The write of a force seek: threshold 0 on the first of an anchor and for iframes, the soft one later and once the budget is spent, the requested one if any; one seek is charged |
| `PlaybackEngine.Engine.GateNativeTick` | src/client/player/playback-sync-engine.ts:843-862 | An iframe without a duration is gated and stays pending, untouched; one that just got it is put on the room clock at threshold 0; a tick not handled takes no time |
| `PlaybackEngine.Engine.SeekConfirmShouldHold` | src/client/player/playback-sync-engine.ts:864-888 | Holds exactly while the tracker calls the seek pending or, in a paused room, the playhead is not at rest, and pauses it again then |
| `PlaybackEngine.Engine.SeekStalled` | src/client/player/playback-sync-engine.ts:799-841 | A stalled playhead loses its boost and is seeked with threshold 0: written if and only if it is off the clamped room clock, whatever the budget |
| `PlaybackEngine.Engine.EscalateStall` | src/client/player/playback-sync-engine.ts:921-928 | The verdict on a stall and its seek: no verdict leaves everything but the stall probe alone, a forced write is at least 3.3 s after the one before |
| `PlaybackEngine.Engine.TryBoost` | src/client/player/playback-sync-engine.ts:929-941 | Boosts exactly for a playing HTML5 drift in the band that is no wrapper echo, and otherwise changes nothing |
| `PlaybackEngine.Engine.TryCatchUpOrForceSeek` | src/client/player/playback-sync-engine.ts:914-943 | A drift that the rate cannot answer, or a stalled playhead, gets the write of a force seek (threshold 0 when stalled); one the rate can close is answered by the rate alone |
| `PlaybackEngine.Engine.CorrectUnstalled` | src/client/player/playback-sync-engine.ts:929-943 | Boosted only where a rate exists, otherwise force-seeked |
| `PlaybackEngine.Engine.SampleTick` | src/client/player/playback-sync-engine.ts:945-962 | An element not in the authority's play state is nudged; the tick is unconverged exactly then or while the tracker holds |
| `PlaybackEngine.Engine.ReconcileWithAuthority` | src/client/player/playback-sync-engine.ts:452-471 | A pause against a playing element, a play against a paused one, and nothing else |
| `PlaybackEngine.Engine.ClearPendingWhenConverged` | src/client/player/playback-sync-engine.ts:964-974 | Clears the snapshot; ends the boost exactly inside the clear band or when the drift cannot be measured |
| `PlaybackEngine.Engine.RunVerifyTick` | src/client/player/playback-sync-engine.ts:976-1022 | Nothing is written within the soft threshold, beyond it the correction is unless the rate can answer; a wrong play state is nudged; a gated iframe waits or is put on the clock; what ends with nothing pending is soundly cleared; a blocked or outdated tick touches nothing |
| `PlaybackEngine.Engine.ScheduleVerifyBurst` | src/client/player/playback-sync-engine.ts:1024-1047 | None while a local seek is held, otherwise one timer per retry delay; budgets survive a re-arm of the same anchor |
| `PlaybackEngine.Engine.RunWatchdogTick` | src/client/player/playback-sync-engine.ts:1049-1101 | The same for the watched snapshot; what turns pending into none is soundly cleared on a measured drift; a rate-only tick corrects the rate and nothing else |
| `PlaybackEngine.Engine.FireTimeout` | src/client/player/playback-sync-engine.ts:1024-1047 | A fired timer is no longer armed nor, for a verify timer, part of its burst, and does what its tick does to the player the host has now |
| `PlaybackEngine.Engine.Dispose` | src/client/player/playback-sync-engine.ts:1113-1129 | No timer, probe, boost or gate is left and the next start snaps |
| `PlaybackEngine.Engine.Reset` | src/client/player/playback-sync-engine.ts:1131-1145 | The same for a media swap, with fresh budgets |
| `PlaybackEngine.Engine.SetHoldLocalSeek` | src/client/player/playback-sync-engine.ts:1152-1164 | Holding clears every verify timer and the boost; releasing arms one verify burst |
| `PlaybackEngine.Engine.OnDurationAvailable` | src/client/player/playback-sync-engine.ts:1170-1189 | Acts only on a gated ready iframe: puts it on the room clock at threshold 0, arms a verify burst and ends verifying |
| `PlaybackEngine.BurstAgrees` | src/client/player/playback-sync-engine.ts:406-514 | Arming a burst keeps the timer bookkeeping in step: every armed timer is known under its own kind |
| `PlaybackEngine.FiredAgrees` | src/client/player/playback-sync-engine.ts:1024-1047 | So does firing a timer |
| `CatchUpEngine.WatchdogFollowsLoop` | src/client/player/playback-sync-engine.ts:1049-1101 | The engine's watchdog driving an obedient lagging player is, second by second, the abstract catch-up loop, and never writes the playhead |
| `CatchUpEngine.LaggingPlayerCatchesUp` | src/client/player/playback-sync-engine.ts:914-974 | Hence at every safe room rate a real engine brings a player lagging in (0.8, 3] and away from the media end back inside 0.35 s at the room rate, by rate alone, in that many seconds |
| `EngineRuns.AnyRun` | src/client/player/playback-sync-engine.ts:206-1191 | In every run of calls, fired timers, player swaps and arbitrary outside changes, with any player or none: both budgets within the cap, at most one burst of verify timers, none and no boost while a seek is held, never left applying, and any two playhead writes forced by stalls since the last reset at least 3.3 s apart per write |
| `EngineRuns.CorrectionTrichotomy` | src/client/player/playback-sync-engine.ts:582-622 | Unforced apply at the default threshold: no playhead write up to 3 s of drift, the boosted rate between 0.8 and 3 s, one write to the clamped clock above |
| `EngineRuns.FarPlayerIsSeeked` | src/client/player/playback-sync-engine.ts:1049-1101 | On a watchdog tick the first force seek of an anchor writes the clamped room clock to every playing-room player that is behind by more than the rate can close, whatever its confirmations, stalls and echoes |
| `EngineRuns.SlowNetworkSeeksBelowSoft` | src/client/player/playback-sync-engine.ts:582-622 | With a soft threshold raised by the round trip an unforced apply writes the playhead exactly for drift above 0.8 s outside the raised band, for all media whose end the playhead has not overrun |
| `EngineRuns.SpentBudgetStillSeeks` | src/client/player/playback-sync-engine.ts:799-841 | With the anchor's budget spent a playing HTML5 force seek appends one playhead write if and only if the playhead is off the clamped target (threshold 0 requested) or beyond the soft threshold (no request) |
| `EngineRuns.StallWritesTakeTime` | src/client/player/playback-sync-engine.ts:293-333 | In any run of looks at the playhead each write forced by a stall takes up 3.3 s since the last seek |
| `EngineRuns.StallWritesIff` | src/client/player/playback-sync-engine.ts:293-333 | So time alone caps them: within a span after a seek some run forces n of them if and only if n gaps of 3.3 s fit into it |
| `EngineRuns.GrantsPerAnchor` | src/client/player/playback-sync-engine.ts:80-90 | On one anchor exactly the first requests up to the maximum are granted, however many are made |
| `BlockProtocol.ServeIsExact` | src/client/local-media/local-media-range-responder.ts:87-141 | Bytes are served exactly for a well-formed range of a file at hand whose read completes; they are the file's bytes from the start, at most one block, and the whole range exactly when it lies inside the file |
| `SfuTransport.FramesFit` | src/client/local-media/local-media-sfu-provider.ts:71-85 | Every frame is its request id followed by 1 to 61,440 payload bytes |
| `SfuTransport.MakeFrame` | src/client/local-media/local-media-sfu-provider.ts:81-83 | The frame filled in place is header then chunk |
| `SfuTransport.SendFrames` | src/client/local-media/local-media-sfu-provider.ts:71-85 | The fragmentation loop sends the frames of the block in order, or a prefix of them when the channel closes, and nothing on a closed one |
| `SfuTransport.ServeBlockRequest` | src/client/local-media/local-media-sfu-provider.ts:45-86 | One request puts its whole answer on the channel, or a prefix of it when the channel closes |
| `SfuTransport.ViewerSlot.OnMessage` | src/client/local-media/local-media-sfu-viewer.ts:67-115 | A message changes the slot exactly as specified, buffers filled in place and never shared; ready turns true only for this slot's own producer |
| `SfuTransport.ViewerSlot.OnTimeout` | src/client/local-media/local-media-sfu-viewer.ts:300-305 | A timeout resolves a pending request with nothing and is ignored afterwards |
| `SfuTransport.ViewerSlot.Fill` | src/client/local-media/local-media-sfu-viewer.ts:101-109 | A payload that fits is copied behind what was received; other requests are untouched |
| `SfuReassembly.RunIsLocal` | src/client/local-media/local-media-sfu-viewer.ts:67-115 | What happens to a request is decided by the events about it, in their order, however others are interleaved |
| `SfuReassembly.ReassemblyIsIdentity` | src/client/local-media/local-media-sfu-viewer.ts:93-115 | A request whose messages arrive completely, in their own order and in time, resolves exactly once with the bytes sent, whatever else shares the channel |
| `SfuReassembly.NeverOthersBytes` | src/client/local-media/local-media-sfu-viewer.ts:67-115 | With timeouts and lost tails it resolves at most once, and with its own bytes or nothing |
| `SfuReassembly.ServeQueue` | src/client/local-media/local-media-sfu-provider.ts:88-111 | The provider's queue puts the answers of its jobs on the channel one after the other |
| `SfuReassembly.EveryRequestGetsItsRange` | src/client/local-media/local-media-sfu-provider.ts:45-112 | End to end, for any list of requests with distinct ids each viewer gets exactly one outcome: its own range of the file, or nothing when it could not be served |
| `WebrtcTransport.ViewerPeer.OnMessage` | src/client/local-media/local-media-webrtc.ts:111-137 | Meta by id, binary to the first request that expects one: the specified step of the pending table |
| `WebrtcTransport.ViewerPeer.OnTimeout` | src/client/local-media/local-media-webrtc.ts:325-328 | A timeout removes the request and resolves it with nothing |
| `WebrtcTransport.AnswerRequest` | src/client/local-media/local-media-webrtc.ts:91-109 | The two sends of a served request are adjacent; a refused one sends an error meta alone |
| `WebrtcTransport.InFlightGrows` | src/client/local-media/local-media-webrtc.ts:91-109 | What is in flight stays a row of whole answers when a request is answered, in any completion order |
| `WebrtcTransport.DeliveredKeepsInv` | src/client/local-media/local-media-webrtc.ts:111-137 | Delivery keeps the pairing invariant: the next message belongs to the request whose meta came last |
| `WebrtcTransport.PairingIsSound` | src/client/local-media/local-media-webrtc.ts:83-140 | In every run at most one pending request expects binary, the next message is then its own binary, each request resolves at most once, and with exactly the bytes served for its id or, refused or timed out, with nothing |
| `WebrtcTransport.NothingLeftPending` | src/client/local-media/local-media-webrtc.ts:322-334 | Once everything asked for is answered and delivered nothing is pending |
| `WebrtcTransport.EveryRequestEnds` | src/client/local-media/local-media-webrtc.ts:83-334 | In every run an asked request is pending or has an outcome; once everything is answered and delivered it has one, which unless its timer fired is exactly what the provider served it |
| `WebrtcTransport.TimerEndsItsRequest` | src/client/local-media/local-media-webrtc.ts:325-328 | A timer ends its own request with nothing, leaves every other one waiting and one that has its outcome alone |
| `AudioSkew.PlanMovesByDelta` | src/shared/audio-delay-skew.ts:25-60 | A change of target moves the planned advance by the change in samples, off by at most half a sample; drop and insert are never both positive |
| `AudioSkew.ToggleLeavesNoResidue` | src/shared/audio-delay-skew.ts:25-60 | Changing the target and back before any audio ran restores the plan |
| `AudioSkew.ProcessSkewQuantum` | src/shared/audio-delay-skew.ts:90-126 | The push, shift and emit loops equal the closed form: drop from the front, then inserted silence, queued frames, silence when dry |
| `AudioDelayGraph.DelayGraph.SetDelayMs` | src/client/player/local-audio-delay-graph.ts:216-231 | Retargets the plan and switches path; the processor exists exactly while the negative path is connected |
| `AudioDelayGraph.ClampIsNearest` | src/shared/audio-delay.ts:9-16 | The delay in force is the nearest in range, so exactly those in range are kept; what is no number becomes 0 |
| `AudioDelayGraph.DelayGraph.OnAudioProcess` | src/client/player/local-audio-delay-graph.ts:129-169 | Trim, process, and as many frames out as in |
| `AudioDelayGraph.DelayGraph.MaybeLeaveNegativePath` | src/client/player/local-audio-delay-graph.ts:107-122 | Leaving the negative path discards no queued frame |
| `AudioConservation.ConservationLaws` | src/shared/audio-delay-skew.ts:25-126 | Every run: drop and insert never coexist; pending + insert - drop changes only by underrun silence, trimming and rounding; output is as long as input and plays it in order less the removed frames, with silence everywhere else; n target changes cost at most n/2 samples |
| `AudioConservation.OrderAfterQuantum` | src/shared/audio-delay-skew.ts:90-126 | One quantum keeps the played and queued frames an increasing selection of the input |
| `AudioConservation.AudioKeepsInv` | src/client/player/local-audio-delay-graph.ts:129-163 | One callback keeps accounts, order and distance to the target |
| `AudioExact.QueueBounded` | src/client/player/local-audio-delay-graph.ts:145-162 | Whole milliseconds within a quarter hertz of a whole kilohertz up to 72: the queue never exceeds two seconds of frames (96,000 at 48 kHz) and is never trimmed; the negative path is left exactly when work is done and no underrun was ever emitted |
| `AudioExact.TrimsExactlyWhen` | src/client/player/local-audio-delay-graph.ts:145-148 | With whole milliseconds the capacity trim can fire at a sample rate if and only if it is not within a quarter hertz of a whole kilohertz up to 72 |
| `AudioExact.TrimsExactlyAbove72kHz` | src/client/player/local-audio-delay-graph.ts:145-148 | So at whole kilohertz it can fire exactly above 72, and at 44.1 kHz it can |
| `AudioExact.ResidueAway` | src/shared/audio-delay-skew.ts:25-60 | Away from whole kilohertz two seconds at once never round to two thousand single milliseconds |
| `AudioExact.QueueBoundedAtAnyRate` | src/client/player/local-audio-delay-graph.ts:145-162 | At every sample rate, whole kilohertz or not, the queue is bounded by two seconds of frames plus one per change of target, and never trimmed before that many changes fill its capacity (55,799 at 44.1 kHz) |
| `RoomStateMerge.MergeParticipantPresence` | src/client/realtime/room-state-merge.ts:13-37 | The copy updated entry by entry equals the patch of every known participant, in any order of entries; unknown ids create nobody |
| `RoomStateMerge.ApplyPresenceBatches` | src/client/realtime/room-state-merge.ts:105-114 | The fold over batches equals its recursive definition |
| `RoomStateMerge.LastNewsDecides` | src/client/realtime/room-state-merge.ts:13-114 | After any run of presence batches every field of every participant is that of the last accepted batch that sets it, or as it was; nobody comes or goes and nothing else changes |
| `RoomStateMerge.ControlSelectsItsMedia` | src/client/realtime/room-state-merge.ts:44-75 | After an accepted control whose media id is in the held playlist, the indexed and the resolved item have that id; otherwise the index stays |
| `RoomStateMerge.RevisionsNeverDecrease` | src/client/realtime/room-state-merge.ts:59-229 | Generation, structural and presence revision never decrease in any run of messages |
| `RoomStateMerge.StructureIsNotGated` | src/client/realtime/room-state-merge.ts:190-229 | After any run of messages the playlist is that of the last snapshot and the structural revision the newest seen, so they belong together if and only if the last snapshot was the newest |
| `RoomStateMerge.NewestDecides` | src/client/realtime/room-state-merge.ts:59-75 | Playback, generation and, after a snapshot, the index after any list of messages with distinct generations are those of the newest accepted one |
| `RoomStateMerge.PreviewOutlivesIff` | src/client/realtime/room-state-merge.ts:190-229 | A snapshot decides all but the counters and playback; an active seek preview outlives one without exactly when the snapshot is not newer |
| `RoomStateMerge.OrderDoesNotMatter` | src/client/realtime/room-state-merge.ts:190-229 | Any permutation of them gives the same playback and generation |
| `PresenceCoalescer.Coalescer.Push` | src/client/realtime/room-state-merge.ts:174-178 | Queues the batch and asks for a frame unless a cancel function is held |
| `PresenceCoalescer.Coalescer.RunFlush` | src/client/realtime/room-state-merge.ts:165-171 | Hands out everything pending, once, and nothing when empty |
| `PresenceCoalescer.Coalescer.Dispose` | src/client/realtime/room-state-merge.ts:179-183 | Drops what is pending and leaves no frame outstanding |
| `PresenceCoalescer.NothingLostOrReordered` | src/client/realtime/room-state-merge.ts:157-188 | With an asynchronous schedule, what was handed out followed by what is pending is what arrived, in order; pending batches always have a frame scheduled |
| `PresenceCoalescer.SynchronousScheduleDeliversOnce` | src/client/realtime/room-state-merge.ts:174-178 | Once a schedule has called back before returning, the stale cancel function stops every later flush, whatever arrives |
| `PresenceCoalescer.FirstSynchronousBatch` | src/client/realtime/room-state-merge.ts:174-178 | So with such a schedule only the very first batch is ever handed out |
| `PresenceCoalescer.ControlCommutes` | src/client/realtime/room-state-merge.ts:59-102 | A control and a list of presence batches may be applied in either order |
| `PresenceCoalescer.CoalescingIsUnobservable` | src/client/realtime/room-state-merge.ts:157-188 | For every interleaving of controls, batches and frames, the lazily updated room with the pending batches applied is the room of arrival order |
| `PresenceCoalescer.AfterTheFrameTheRoomsAgree` | src/client/realtime/room-state-merge.ts:157-188 | A final frame leaves the client itself in that room |
| `PresenceCoalescer.ReplayChangesNothing` | src/client/realtime/room-state-merge.ts:82-86 | Replaying batches already seen, in any order and number, changes nothing |
| `PresenceCoalescer.SnapshotCommutesIff` | src/client/realtime/room-state-merge.ts:190-229 | A snapshot may be swapped with a waiting batch if and only if the batch is no news to it |
| `ServerClock.Clock.NoteRtt` | src/shared/server-clock.ts:30-40 | Seeds or blends the round trip, ignoring negative and non-finite ones |
| `ServerClock.RttForgets` | src/shared/server-clock.ts:30-40 | Under a steady round trip the estimate keeps exactly 0.7 of its error with every reading, and a first reading is taken as it is |
| `ServerClock.RttStaysInRange` | src/shared/server-clock.ts:30-40 | The estimate stays between the smallest and the largest reading for ever |
| `ServerClock.Clock.NoteServerNow` | src/shared/server-clock.ts:66-98 | Half-round-trip sample, seed, outlier gate and blend as specified |
| `ServerClock.OffsetStaysWithinHalfRtt` | src/shared/server-clock.ts:66-98 | If every stamp carries its own round trip of at most R (R at most 10 s), the offset stays within R/2 of the truth for ever, no stamp is rejected and each moves a known offset by at most R/5 |
| `ServerClock.BorrowedRttDoublesTheError` | src/shared/server-clock.ts:74-85 | Stamps that borrow the blended round trip may leave the offset a whole round trip late, never more than half early |
| `ServerClock.BorrowedRttErrorIsReached` | src/shared/server-clock.ts:74-85 | Both ends of that interval are reached |
| `ServerClock.BadSeedIsForgotten` | src/shared/server-clock.ts:86-96 | A wrong seed loses a fifth of its excess error with every honest stamp while the gate lets them through |
| `ServerClock.AlwaysCorrectedIff` | src/shared/server-clock.ts:86-96 | Every run of honest stamps is accepted, and fades the error, if and only if the seed is off by at most the gate less half a round trip |
| `ServerClock.NeverCorrectedIff` | src/shared/server-clock.ts:89-93 | No run of honest stamps moves a seed if and only if it is off by more than the gate plus half a round trip |
| `ServerClock.PeerSkewBound` | src/shared/server-clock.ts:46-98 | Two peers within drifts t1 and t2 of their own clocks are at most t1 + t2 + rate * (R1 + R2) / 2 apart, unless exactly one sits at the end of its media |
| `SfuRegistry.Runtime.ProduceData` | src/server/media/mediasoup-runtime.ts:233-294 | Refused exactly when the transport is unknown; otherwise registered, the newest provider replacing the last |
| `SfuRegistry.Runtime.RunCloseHook` | src/server/media/mediasoup-runtime.ts:273-291 | The hook removes only its own entries, and an inner table with its last entry |
| `SfuRegistry.CloseOneIsWithout` | src/server/media/mediasoup-runtime.ts:273-291 | Closing a producer through its hook is the registry without that producer, said at once |
| `SfuRegistry.WithoutTwice` | src/server/media/mediasoup-runtime.ts:273-291 | Closing two sets one after the other is closing their union |
| `SfuRegistry.Runtime.ClearMedia` | src/server/media/mediasoup-runtime.ts:325-336 | Closes exactly the producers named for the media id, although their entries are removed before their hooks run |
| `SfuRegistry.Runtime.CloseTransport` | src/server/media/mediasoup-runtime.ts:368-370 | Closes exactly the producers on the transport and unregisters it |
| `SfuRegistry.Runtime.CloseRoom` | src/server/media/mediasoup-runtime.ts:413-450 | The three nested loops amount to removing at once the room's named producers, everything on its transports, the transports and the router |
| `SfuTeardown.EveryRunIsSound` | src/server/media/mediasoup-runtime.ts:250-291 | In every run each entry names an open producer made for it, no inner table is empty, every open request channel is listed, and every producer's transport and router exist |
| `SfuTeardown.LatestProducerWins` | src/server/media/mediasoup-runtime.ts:265-290 | From the moment a provider is produced until a newer one is, the media id names it exactly while it is open, and nobody once it is closed by whatever close, through every run of steps |
| `SfuTeardown.NoFallbackToSuperseded` | src/server/media/mediasoup-runtime.ts:284-290 | The shortest run in which nobody is named although a superseded producer is still open |
| `SfuTeardown.ClosedRoomLeavesNothing` | src/server/media/mediasoup-runtime.ts:413-450 | No transport, producer, registry entry or router of a closed room remains |
| `SfuTeardown.HandlersKeepMediaInOneRoom` | src/server/realtime/handlers/local-media-sfu.ts:61-72 | Producers made through the signalling handlers keep media, producer and transport in one room, in every run |
| `SfuTeardown.OtherRoomsAreUntouched` | src/server/media/mediasoup-runtime.ts:413-450 | Then closing a room leaves every table exactly its entries of other rooms |
| `SfuTeardown.SharedMediaCrossesRooms` | src/server/media/mediasoup-runtime.ts:417-421 | Without those checks closing one room can close another room's channel |
| `LruMap.TouchIsMapUpdate` | src/server/media/local-media-block-cache.ts:58-62 | Delete-then-set is a map update: only the key's own entry changes |
| `LruMap.TouchKeepsRecency` | src/server/media/local-media-block-cache.ts:58-62 | and keeps the list in order of last use |
| `BlockCache.KeysNameOneBlock` | src/server/media/local-media-block-cache.ts:41-43 | For media ids without a colon a key names one block of one medium, and the prefix test selects exactly the medium's keys |
| `BlockCache.Evicted` | src/server/media/local-media-block-cache.ts:45-56 | The fewest oldest blocks whose removal lets the new bytes fit |
| `BlockCache.Slot.EvictIfNeeded` | src/server/media/local-media-block-cache.ts:45-56 | The eviction loop removes exactly those and keeps the byte count exact |
| `BlockCache.Slot.PutL1` | src/server/media/local-media-block-cache.ts:64-76 | Evict, replace and count as specified |
| `BlockCache.Slot.Request` | src/server/media/local-media-block-cache.ts:184-217 | Serve a fresh block, join the fetch of the key, or start one |
| `BlockCache.DropMedia` | src/server/media/local-media-block-cache.ts:152-159 | The clearing loop keeps the other media's blocks in order and the byte count in step |
| `BlockCache.BudgetHolds` | src/server/media/local-media-block-cache.ts:64-76 | After storing any block the cache is within 64 MiB if and only if that block is; what was stored is then served |
| `BlockCache.BlockLivesTwoMinutes` | src/server/media/local-media-block-cache.ts:64-76 | A stored block is served for 120 s and no longer, however often it is used meanwhile |
| `BlockCache.EvictionFollowsRecency` | src/server/media/local-media-block-cache.ts:45-62 | Every evicted block was used before every kept one, and one eviction fewer would not have been enough |
| `BlockCache.PutKeepsTheRest` | src/server/media/local-media-block-cache.ts:64-76 | A store keeps exactly the blocks of other keys that were not evicted |
| `BlockCache.SurvivesPutIff` | src/server/media/local-media-block-cache.ts:45-76 | A cached block of another key survives a store if and only if it, all blocks used after it and the new one fit into 64 MiB together |
| `BlockCacheRuns.EveryRunAgreesWithTheSource` | src/server/media/local-media-block-cache.ts:184-244 | In every run, invalidations included: exact byte count, budget, recency order, and every block delivered from the cache or a shared fetch is the source's for its key |
| `BlockCacheRuns.NeverOverBudget` | src/server/media/local-media-block-cache.ts:45-76 | With blocks no larger than the limit the cache never exceeds it |
| `BlockCacheRuns.RecentBlockIsServed` | src/server/media/local-media-block-cache.ts:45-217 | After any run that does not clear its medium or store its key anew, and in which it and all that was used after it stay within 64 MiB, a stored block is served, for 120 s exactly |
| `BlockCacheRuns.OneFetchPerKey` | src/server/media/local-media-block-cache.ts:204-240 | Without invalidations at most one fetch per key is ever under way |
| `BlockCacheRuns.SlotIsLostIff` | src/server/media/local-media-block-cache.ts:152-240 | In every run a fetch under way holds the slot of its key if and only if, since it started, its medium has not been cleared and no other fetch of its key has ended |
| `BlockCacheRuns.RequestStartsAnotherIff` | src/server/media/local-media-block-cache.ts:204-217 | A request starts a further fetch of a key if and only if no fresh block is cached and every fetch of the key under way has had its slot taken in that way |
| `BlockCacheRuns.InvalidationSplitsAFetch` | src/server/media/local-media-block-cache.ts:160-164 | A run with two fetches of one key under way, started after the only invalidation |
| `BlockCacheRuns.MediumStaysClearIff` | src/server/media/local-media-block-cache.ts:152-240 | A medium with no block cached stays out of the cache for a whole run if and only if no fetch under way for it stores its block in that run |
| `BlockCacheRuns.StoreAfterClearReturns` | src/server/media/local-media-block-cache.ts:231-233 | The shortest run in which a cleared medium comes back |
| `HlsRewriteCache.Store.TouchEntry` | src/server/media/hls-rewrite-cache.ts:18-26 | The trimming loop keeps the newest 256 entries |
| `HlsRewriteCache.Store.GetOrCompute` | src/server/media/hls-rewrite-cache.ts:45-73 | Serve, join or start, as specified |
| `HlsRewriteCache.EveryRunServesFreshPages` | src/server/media/hls-rewrite-cache.ts:18-91 | In every run: at most 256 entries in order of last use, every entry the newest result for its key, one computation per key |
| `HlsRewriteCache.NeverServesExpired` | src/server/media/hls-rewrite-cache.ts:28-62 | Every page handed out from the cache was computed for its key less than fifteen seconds before, and no newer result was known |
| `HlsRewriteCache.RecentPageIsServed` | src/server/media/hls-rewrite-cache.ts:18-62 | After any run with fewer than 256 other keys used since, a computed page is served, for 15 s exactly |
| `HlsRewriteCache.WaitersGetTheNewest` | src/server/media/hls-rewrite-cache.ts:64-91 | Every page handed to a caller that started or joined a computation is that computation's result for its key, and no newer result was known |
| `HlsText.MatchesByPieces` | src/server/media/hls-proxy-rewrite.ts:9-12 | Scanning with the regular expression finds what cutting the text at its quotes finds |
| `HlsText.MatchesOfReplace` | src/server/media/hls-proxy-rewrite.ts:61-72 | After a replacement the expression finds the replaced groups, in the same places |
| `HlsText.MatchesLineByLine` | src/server/media/hls-proxy-rewrite.ts:38-51 | When every line closes what it opens, scanning the whole body finds exactly what scanning its lines finds |
| `HlsText.JoinedLines` | src/server/media/hls-proxy-rewrite.ts:132-135 | Splitting and joining only turns CRLF into LF |
| `HlsSpans.OtherQuoteKeepsItsGroups` | src/server/media/hls-proxy-rewrite.ts:61-72 | A pass over one quote style, in a text where no attribute crosses another, leaves the other style with groups it had before, and with all of them when none lies inside another |
| `HlsSpans.TwoPasses` | src/server/media/hls-proxy-rewrite.ts:61-72 | Where the attributes keep apart both passes replace the groups of their own style, in their places, and none of the other |
| `HlsSpans.HoldersAreReplacedInside` | src/server/media/hls-proxy-rewrite.ts:61-72 | When no group of the replaced style holds the other quote, the other style is found again in place, each group with the replacement done inside it |
| `HlsSpans.OtherQuoteUnchangedIff` | src/server/media/hls-proxy-rewrite.ts:61-72 | Then the other style is as it was if and only if none of its groups holds one that changes |
| `HlsRewrite.CollectReferencedUrls` | src/server/media/hls-proxy-rewrite.ts:27-54 | The collecting loops gather exactly the http(s) URLs of the attributes and URL lines |
| `HlsRewrite.RewriteLineWithMap` | src/server/media/hls-proxy-rewrite.ts:56-91 | The two passes and the URL-line step, as specified |
| `HlsRewrite.UnmappedLinesStay` | src/server/media/hls-proxy-rewrite.ts:56-91 | A line none of whose references is mapped stays as it is |
| `HlsRewrite.EmptyMapIsIdentity` | src/server/media/hls-proxy-rewrite.ts:127-136 | An empty map is the identity up to CRLF, for every body |
| `HlsRewrite.LinesAreKept` | src/server/media/hls-proxy-rewrite.ts:127-136 | The rewritten body has as many lines, and every unmapped line stands in its place in it, less a carriage return at its end unless it is the last |
| `HlsRewrite.RewriterLooksUpWhatIsCollected` | src/server/media/hls-proxy-rewrite.ts:27-91 | In a playlist whose lines close their quotes and cross no attributes, quote styles mixed or not, every reference the rewriter looks up is one the collector has seen, so every http(s) one is collected |
| `HlsRewrite.SecondPassSeesTheLineIff` | src/server/media/hls-proxy-rewrite.ts:61-72 | For lines without an apostrophe in a double-quoted value the second pass sees exactly the line's own single-quoted values if and only if none of them holds a double-quoted attribute that the first pass changes |
| `HlsRewrite.NestedAttributeIsLookedUpIff` | src/server/media/hls-proxy-rewrite.ts:61-72 | The failing family: with a double-quoted attribute inside a single-quoted one, what is looked up is collected if and only if the inner reference is not rewritten |
| `HlsRewrite.CrossingAttributeIsLookedUpIff` | src/server/media/hls-proxy-rewrite.ts:61-72 | Another one, with nothing nested: a double-quoted value that opens a single-quoted attribute |
| `HlsRewrite.AttributesOfRewrittenLine` | src/server/media/hls-proxy-rewrite.ts:56-91 | The values of a rewritten tag line are those of the line in both quote styles, rewritten one by one |
| `HlsRewrite.NothingIsLeftUnrewritten` | src/server/media/hls-proxy-rewrite.ts:143-157 | Mapping the collected set rewrites every http(s) value of both quote styles, on every tag line whose attributes keep apart, and every URL line without trailing space |
| `HlsRewrite.UrlLineIsReplacedIff` | src/server/media/hls-proxy-rewrite.ts:74-84 | A mapped URL line becomes the proxy path if and only if it has no more trailing than leading spaces; otherwise its first characters stay in front |
| `HlsRewrite.UrlLineIffInk` | src/server/media/hls-proxy-rewrite.ts:46-52 | A line is a URL line exactly when its first character that is no white space is no #, and its URL runs from there to the last such character |
| `RoomLog.Room.PruneActionLog` | src/server/log.ts:22-32 | The filter loop and the cut, as specified |
| `RoomLog.Room.AppendActionLog` | src/server/log.ts:34-52 | Untracked actions change nothing; tracked ones are appended and the log pruned at their time |
| `RoomLog.PruneKeeps` | src/server/log.ts:22-32 | Pruning an ordered log keeps exactly the entries young enough and followed by fewer than the limit |
| `RoomLog.OnlineEqualsOffline` | src/server/log.ts:34-52 | For appends in order of time the kept log is one prune of the whole tracked history at its last entry: ordered, within limit and age |
| `RoomLog.OnlineEqualsOfflineIff` | src/server/log.ts:34-52 | For any tracked history within the limit the kept log is one prune at its last entry if and only if no entry young at that time is over an hour older than an entry after it |
| `RoomLog.OnlineEqualsOfflineExactly` | src/server/log.ts:22-52 | For any tracked history of any length and order it is so if and only if no append has dropped, by age or by number, an entry that this one prune keeps |
| `RoomLog.OutOfOrderDiffers` | src/server/log.ts:34-52 | A concrete run out of order where online and offline pruning differ |
| `Repair.RepairPlaylistItemFields` | src/server/repair.ts:217-271 | The field-by-field repair equals the declarative one, findings included |
| `Repair.MendingSettles` | src/server/repair.ts:217-271 | A repaired item has known kind, mode and status, local files direct, no legacy field; the well-formed items are exactly those repair leaves alone, with no finding |
| `RoomRepair.IndexIn` | src/server/repair.ts:195-202 | Whatever the stored index is, the repaired one is in range, or 0 for an empty playlist |
| `RoomRepair.IndexIsNearest` | src/server/repair.ts:182-202 | A whole index stays or goes to the nearer end; any number at or past the end goes there, everything else to the front |
| `RoomRepair.Room.RepairPlaylistState` | src/server/repair.ts:175-215 | Filter, item repairs, clamp, index repair and trim, as specified, findings in order |
| `RoomRepair.Room.RepairParticipants` | src/server/repair.ts:47-88 | Filter, limit and joining times, as specified |
| `RoomRepair.Room.RepairActionLog` | src/server/repair.ts:90-115 | Filter and prune, as specified |
| `RoomRepair.Room.SanitizePlayback` | src/server/repair.ts:285-325 | Every playback field in range, as specified, counting the loop repairs |
| `RoomSecurity.SecuritySettles` | src/server/realtime/services/room-security.ts:51-73 | Repairing settles the security fields and a second repair neither changes nor reports anything; a password stays enabled exactly when both secrets are non-empty texts |
| `RoomSecurity.PasswordLostInSilenceIff` | src/server/repair.ts:31-43 | A repair turns a password off without a finding if and only if both secrets are truthy and one is no text |
| `RoomRepair.Room.RepairSecurity` | src/server/repair.ts:31-43 | Replaced by the default or normalised, as specified |
| `RoomRepair.Room.RepairAndCheck` | src/server/repair.ts:21-164 | The whole repair and its list of findings, in order |
| `RoomRepair.RepairEstablishesTheInvariant` | src/server/repair.ts:21-164 | From any malformed room: limits, index in range, security fields typed, rate in [0.25, 3], non-negative anchor and revisions, valid modes, local files direct, tracked recent log |
| `RoomRepair.FittingFieldsSurvive` | src/server/repair.ts:21-164 | Every field that fits survives however malformed the others are, playback numbers go to the nearest in range, and what does not fit becomes its default |
| `RoomRepair.MembersSurvive` | src/server/repair.ts:47-88 | A participant with an id keeps everything but an invalid joining time while the room is not over its limit |
| `RoomRepair.EntriesSurvive` | src/server/repair.ts:90-115 | So does every tracked recent log entry |
| `RoomRepair.RepairIsIdempotent` | src/server/repair.ts:21-164 | A second repair at the same time changes no state, and reports nothing if and only if the room id is valid, the playlist is not empty and every joining time is finite |
| `RoomRepair.TrimmingKeepsTheCurrentItem` | src/server/repair.ts:182-212 | For every stored playlist and index the current item afterwards is the well-typed one at the clamped index, or the first one kept when that is trimmed away |
| `RoomRepair.SelectionIsKeptIff` | src/server/repair.ts:182-212 | A selected well-typed item stays selected if and only if fewer than the limit well-typed items follow it and nothing before it is dropped or it is the last well-typed one |
| `RoomRepair.DroppingShiftsTheSelection` | src/server/repair.ts:182-202 | The smallest playlist whose repair makes the room play the item after the selected one |

## Left out

- HlsRewrite.NothingIsLeftUnrewritten: a tag line on which an attribute lies inside one of the other quote style is excluded, because the outer value is then rewritten twice or the inner one not at all; URL lines with trailing space are excluded because of the behaviour stated in `HlsRewrite.UrlLineIsReplacedIff`.
- HlsRewrite.RewriterLooksUpWhatIsCollected: lines on which attributes of the two quote styles cross are excluded, because the property fails on them (`HlsRewrite.NestedAttributeIsLookedUpIff`, `HlsRewrite.CrossingAttributeIsLookedUpIff`); URL parsing is a fixed partial function that ignores surrounding white space, the test for `http(s)://` a fixed predicate on its results.
- PlaybackEngine.Engine.ApplyRoomClock: the player passed to an apply and the one the host returns are adapters over the same media, modelled as one object; callbacks of host and player that call back into the engine are not modelled; a throw is an early stop of the try block before its writes, after its measurement or at its end, so a player that takes a playhead write and then throws before the write is noted is not modelled.
- EngineRuns.AnyRun: the provider tuning is fixed during a run; a media swap that changes it in the middle of an anchor may leave a count above the new maximum.
- SfuReassembly.EveryRequestGetsItsRange: request ids are 36 ASCII characters, one byte each; fractional byte ranges are not modelled.
- SfuRegistry.Runtime.ProduceData: each operation is one step; interleavings inside its awaits, such as two concurrent creations of one router, are not modelled, and inner request tables are values that are written back where the source shares one object.
- BlockCacheRuns.EveryRunAgreesWithTheSource: the Redis tier is a fetch that returns the source's block; its backoff and index are not modelled, and the source's blocks do not change.
- ServerClock.PeerSkewBound: nothing is claimed when exactly one of the two peers is measured against the end of its media.
- AudioExact.TrimsExactlyWhen: delays are whole milliseconds, as the delay control sets them in steps of fifty; for others `AudioExact.QueueBoundedAtAnyRate` gives the bound.
- HlsRewriteCache.WaitersGetTheNewest: the callers of a computation that fails get an error, which is not recorded.
- Floating point: all arithmetic is exact over `real`; `Math.round` is the nearest integer, halves up.
- The loop fields of a playback snapshot in the engine, display formatting and logging: carried along, no property depends on them.
- Data consumers of the SFU registry, its worker start-up and worker death: they hold no entry that another table depends on.
- Setting, hashing and checking join passwords: cryptography; only the normalisation of stored security fields is modelled.
- The combined clock-and-transport entry point of the player adapter, the playlist type guesses of the rewriter and the active-responder slot of the range responder: thin wrappers over what is modelled.
- The peer table and channel set-up of the WebRTC path and the session set-up of the SFU viewer: the model starts from an open channel.
- The message encoding of the block protocol: messages are a datatype; the file that encodes them is not part of this model.
- ICE and SDP negotiation, WebSocket and Redis plumbing, delivery-mode planning, control tokens and proxy tokens: no hard state.
- React components, hooks, pages, service worker, IndexedDB and environment handling: user interface and configuration.
