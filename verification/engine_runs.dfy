/** What holds along whole runs of the engine, and what the correction order amounts to. */
module EngineRuns {
  import opened Js
  import opened PlaybackSync
  import opened ApplyPlaybackSync
  import opened SyncHost
  import opened PlaybackEngine

  /** Everything that can happen to an engine: a call, a fired timer, another player or none at
      all, or the world moving on. */
  datatype Happening =
    | ApplyClockNow(player: Player, sync: SyncState, explicit: Option<real>)
    | Watchdog
    | TimerFires(id: nat)
    | Hold(hold: bool)
    | NewAnchor(anchorMs: real)
    | DurationArrives
    | Starts
    | Disposes
    | Resets
    | Swaps(next: Player?)
    | PlayerMoves(moved: Player)
    | WorldMoves

  predicate Involves(h: Happening, players: set<Player>) {
    match h
    case ApplyClockNow(player, _, _) => player in players
    case Swaps(next) => next == null || next in players
    case PlayerMoves(moved) => moved in players
    case _ => true
  }

  /** Along every run, with the provider tuning fixed and whichever of the players the host has
      at the time: the force seeks and escalations of the current anchor stay within the cap,
      no more verify timers are armed than one burst holds, none while a local seek is held,
      the engine is never left mid-apply, and since the last reset any two playhead writes
      forced by a stall are a gap of 3.3 s apart for each one from the first to the second. */
  method AnyRun(engine: Engine, players: set<Player>, run: seq<Happening>)
    requires engine.Valid() && (engine.host.player == null || engine.host.player in players)
    requires forall h | h in run :: Involves(h, players)
    modifies engine, engine.host, engine.scheduler, engine.native, players
    ensures engine.Valid()
    ensures engine.budgets.force.count <= engine.budgetCap && engine.budgets.escalate.count <= engine.budgetCap
    ensures |engine.timers.retry| <= engine.burstCap
    ensures forall id | id in engine.scheduler.queue.armed && engine.scheduler.queue.armed[id].task.VerifyTick? ::
              id in engine.timers.retry
    ensures engine.holdLocalSeek ==> engine.host.catchUpRate == None
    ensures engine.holdLocalSeek ==>
              forall id | id in engine.scheduler.queue.armed :: engine.scheduler.queue.armed[id].task.TransportTick?
    ensures engine.phase != Applying
    ensures forall i, j | 0 <= i <= j < |engine.stallSeeks| ::
              engine.stallSeeks[j] - engine.stallSeeks[i] >= (j - i) as real * STALL_SEEK_GAP_MS
    ensures forall i | 0 <= i < |engine.stallSeeks| :: engine.stallSeeks[i] <= engine.scheduler.now
  {
    for i := 0 to |run|
      invariant engine.Valid() && (engine.host.player == null || engine.host.player in players)
    {
      OneHappening(engine, players, run[i]);
    }
    forall i, j | 0 <= i <= j < |engine.stallSeeks|
      ensures engine.stallSeeks[j] - engine.stallSeeks[i] >= (j - i) as real * STALL_SEEK_GAP_MS
      ensures engine.stallSeeks[i] <= engine.scheduler.now
    {
      PacedApart(engine.stall, engine.stallSeeks, engine.scheduler.now, i, j);
      PacedApart(engine.stall, engine.stallSeeks, engine.scheduler.now, i, |engine.stallSeeks| - 1);
    }
  }

  lemma {:induction false} PacedApart(p: StallProbe, seeks: seq<real>, nowMs: real, i: nat, j: nat)
    requires StallPaced(p, seeks, nowMs) && i <= j < |seeks|
    ensures seeks[j] - seeks[i] >= (j - i) as real * STALL_SEEK_GAP_MS
    decreases j
  {
    if i < j {
      PacedApart(p, seeks, nowMs, i, j - 1);
    }
  }

  method OneHappening(engine: Engine, players: set<Player>, h: Happening)
    requires engine.Valid() && (engine.host.player == null || engine.host.player in players) && Involves(h, players)
    modifies engine, engine.host, engine.scheduler, engine.native, players
    ensures engine.Valid() && (engine.host.player == null || engine.host.player in players)
  {
    hide TimersAgree, StallPaced;
    match h
    case ApplyClockNow(player, sync, explicit) => engine.ApplyRoomClock(player, sync, explicit);
    case Watchdog => engine.RunWatchdogTick();
    case TimerFires(id) => if id in engine.scheduler.queue.armed { engine.FireTimeout(id); }
    case Hold(hold) => engine.SetHoldLocalSeek(hold);
    case NewAnchor(anchorMs) => engine.OnAuthorityAnchor(anchorMs);
    case DurationArrives => engine.OnDurationAvailable();
    case Starts => engine.Start();
    case Disposes => engine.Dispose();
    case Resets => engine.Reset();
    case Swaps(next) => engine.host.player := next;
    case PlayerMoves(moved) => moved.times, moved.rates, moved.transport := *, *, *;
    case WorldMoves => MoveWorld(engine);
  }

  /** The room, the network and the clock change in any way they like. */
  method MoveWorld(engine: Engine)
    requires engine.Valid()
    modifies engine.host`mediaReady, engine.host`playback, engine.host`pending, engine.host`lastAppliedAnchorMs,
             engine.host`authorityPaused, engine.host`durationHint, engine.host`rttMs,
             engine.scheduler`now
    ensures engine.Valid()
  {
    var host := engine.host;
    host.mediaReady, host.playback, host.pending := *, *, *;
    host.lastAppliedAnchorMs, host.authorityPaused := *, *;
    host.durationHint, host.rttMs := *, *;
    var later: real := *;
    if later > engine.scheduler.now {
      engine.scheduler.now := later;
    }
  }

  // ---------------------------------------------------------------- the correction order

  /** An unforced apply on a playing HTML5 player at the default soft threshold, its playhead
      not beyond the media end by more than that threshold: up to 0.8 s of drift nothing is
      written to the playhead, up to 3 s the rate alone answers, beyond it the playhead jumps
      to the clamped room clock. */
  lemma CorrectionTrichotomy(h: real, sync: SyncState, t: real, b: Bounds,
                             times: seq<real>, rates: seq<real>, times': seq<real>, rates': seq<real>)
    requires PredictedWrites(Fin(h), sync, None, t, b, DEFAULT_DRIFT_THRESHOLD_SEC, times, rates, times', rates')
    requires SeekCeilingSec(b).Some? ==> h <= SeekCeilingSec(b).value + DEFAULT_DRIFT_THRESHOLD_SEC
    ensures var d := DriftSec(Fin(h), sync, t, b, 0.0).value;
            && (times' == times <==> d <= CATCH_UP_DRIFT_MAX_SEC)
            && (d > CATCH_UP_DRIFT_MAX_SEC ==> times' == times + [TargetSec(sync, t, b, 0.0)])
            && (DEFAULT_DRIFT_THRESHOLD_SEC < d <= CATCH_UP_DRIFT_MAX_SEC && sync.playbackRate > 0.0 ==>
                  |rates| < |rates'| && rates'[|rates|] == Min(1.4 * sync.playbackRate, 3.0))
  {
    SeekTestAgreesWithDrift(h, sync, t, b);
    assert |times + [TargetSec(sync, t, b, 0.0)]| > |times|;
  }

  /** At a soft threshold raised by a slow network the unforced apply still seeks from 0.8 s
      on: drift between the default and the soft threshold is below the catch-up band. */
  lemma SlowNetworkSeeksBelowSoft(h: real, sync: SyncState, t: real, b: Bounds, rttMs: real,
                                  times: seq<real>, rates: seq<real>, times': seq<real>, rates': seq<real>)
    requires PredictedWrites(Fin(h), sync, None, t, b, DriftThresholdSec(rttMs), times, rates, times', rates')
    requires SeekCeilingSec(b).Some? ==> h <= SeekCeilingSec(b).value + DEFAULT_DRIFT_THRESHOLD_SEC
    ensures var d := DriftSec(Fin(h), sync, t, b, 0.0).value;
            times' != times <==> d > DEFAULT_DRIFT_THRESHOLD_SEC && !InCatchUpBand(d, DriftThresholdSec(rttMs))
  {
    SeekTestAgreesWithDrift(h, sync, t, b);
    assert |times + [TargetSec(sync, t, b, 0.0)]| > |times|;
  }

  /** A playhead so far behind that only a seek helps, an iframe by more than the soft threshold,
      an element by more than the catch-up band, and not near the end of the media. */
  predicate FarBehind(nativeMode: bool, h: Num, sync: SyncState, t: real, b: Bounds, softSec: real) {
    && h.Fin? && ExpectedSec(sync, t) - h.value > (if nativeMode then softSec else Max(softSec, 3.0))
    && (SeekCeilingSec(b).Some? ==> h.value < SeekCeilingSec(b).value - 0.8)
  }

  lemma FarBehindStays(nativeMode: bool, h: Num, sync: SyncState, t: real, u: real, b: Bounds, softSec: real)
    requires FarBehind(nativeMode, h, sync, t, b, softSec) && t <= u && sync.playbackRate >= 0.0 && softSec >= 0.0
    ensures DriftSec(h, sync, u, b, 0.0).Some? && DriftSec(h, sync, u, b, 0.0).value > softSec
    ensures !nativeMode ==> CatchUpRate(sync.playbackRate, DriftSec(h, sync, u, b, 0.0).value, softSec).None?
    ensures h.value < TargetSec(sync, u, b, 0.0)
    ensures SeekWrite(h, sync, u, b, Fin(0.0)) == [TargetSec(sync, u, b, 0.0)]
  {
    ExpectedGrows(sync, t, u);
    hide ExpectedSec, SeekCeilingSec;
  }

  /** A watchdog tick on a playhead so far behind, with budget left for the first seek of the
      anchor, puts it on the clamped room clock of a moment of the tick, once. */
  method FarPlayerIsSeeked(engine: Engine, player: Player, sync: SyncState)
    requires engine.Valid() && !engine.Blocked() && engine.host.player == player && engine.WatchedState() == sync
    requires engine.TicksFreely(player) && !sync.paused && sync.playbackRate >= 0.0
    requires FarBehind(engine.host.IsNative(), player.Playhead(), sync, engine.scheduler.now, engine.SyncBounds(player), engine.host.SoftThreshold())
    requires ResetBudget(engine.budgets.force, engine.host.playback.timelineAnchorMs).count == 0 < engine.host.MaxForceSeeks()
    modifies engine, engine.host, engine.scheduler, engine.native, player
    ensures !engine.Threw(player) ==>
              && old(engine.scheduler.now) <= engine.trace.decidedAtMs <= engine.scheduler.now
              && player.times.writes == old(player.times.writes)
                   + [TargetSec(sync, engine.trace.decidedAtMs, old(engine.SyncBounds(player)), 0.0)]
  {
    hide TimersAgree, StallPaced, DriftSec, CatchUpRate, SeekWrite, TargetSec, FarBehind, JudgeStall;
    ghost var h, b, soft, startMs := player.Playhead(), engine.SyncBounds(player), engine.host.SoftThreshold(), engine.scheduler.now;
    ghost var nativeMode := engine.host.IsNative();
    engine.RunWatchdogTick();
    ghost var t, at := engine.trace.decidedAtMs, engine.sampledMs;
    FarBehindStays(nativeMode, h, sync, startMs, at, b, soft);
    if at <= t {
      FarBehindStays(nativeMode, h, sync, startMs, t, b, soft);
    }
  }

  // ---------------------------------------------------------------- forced seeks and the budget

  /** With the budget of the anchor spent, a force seek of a playing HTML5 room still writes the
      playhead: a request for threshold zero whenever the playhead is off the clamped room
      clock, no request exactly beyond the soft threshold. The budget counts neither. */
  method SpentBudgetStillSeeks(engine: Engine, player: Player, sync: SyncState, anchorMs: real, requested: Option<real>)
    requires engine.Valid() && !engine.disposed && !engine.host.IsNative() && !sync.paused
    requires requested == None || requested == Some(0.0)
    requires engine.budgets.force.anchorMs == anchorMs && engine.budgets.force.count >= engine.host.MaxForceSeeks()
    modifies engine, engine.host, engine.scheduler, engine.native, player
    ensures engine.budgets.force in
              {old(engine.budgets.force), ResetBudget(old(engine.budgets.force), engine.host.playback.timelineAnchorMs)}
    ensures !engine.Threw(player) ==>
              var b := old(engine.SyncBounds(player));
              var target := TargetSec(sync, engine.trace.decidedAtMs, b, 0.0);
              var h := old(player.Playhead());
              var threshold := if requested.Some? then 0.0 else engine.host.SoftThreshold();
              player.times.writes == old(player.times.writes)
                + if h.Fin? && Abs(h.value - target) > threshold then [target] else []
  {
    engine.TryForceSeek(player, sync, anchorMs, requested);
  }

  /** One look at the playhead: when, whether the drift is beyond the soft threshold, and where
      the media stands. */
  datatype Look = Look(atMs: real, lagging: bool, media: Option<real>)

  /** The looks of a run that judge the playhead stalled, each answered by a playhead write. */
  function StallWrites(p: StallProbe, looks: seq<Look>): seq<real>
    decreases |looks|
  {
    if looks == [] then []
    else
      var look := looks[0];
      var (next, stalled) := JudgeStall(p, look.atMs, look.lagging, look.media);
      if stalled then [look.atMs] + StallWrites(StallProbe(None, Some(look.atMs)), looks[1..])
      else StallWrites(next, looks[1..])
  }

  /** Looks in the order of time, none before `fromMs` and none after `toMs`. */
  predicate Within(looks: seq<Look>, fromMs: real, toMs: real)
    decreases |looks|
  {
    looks == [] || (fromMs <= looks[0].atMs <= toMs && Within(looks[1..], looks[0].atMs, toMs))
  }

  /** Every stall write takes up one gap of the time since the last seek. */
  lemma {:induction false} StallWritesTakeTime(p: StallProbe, looks: seq<Look>, seekMs: real, fromMs: real, toMs: real)
    requires Within(looks, fromMs, toMs) && fromMs <= toMs && p.lastSeekMs == Some(seekMs) && StallPaced(p, [], fromMs)
    ensures |StallWrites(p, looks)| as real * STALL_SEEK_GAP_MS <= toMs - seekMs
    decreases |looks|
  {
    if looks != [] {
      var look := looks[0];
      var (next, stalled) := JudgeStall(p, look.atMs, look.lagging, look.media);
      StallWritesTakeTime(if stalled then StallProbe(None, Some(look.atMs)) else next, looks[1..],
                          if stalled then look.atMs else seekMs, look.atMs, toMs);
    }
  }

  /** A playhead frozen at 0 in a room that has gone on: looked at when the grace is over and
      when the window is, over and over. */
  function FrozenLooks(seekMs: real, n: nat): seq<Look>
    decreases n
  {
    if n == 0 then []
    else
      [Look(seekMs + CATCH_UP_STALL_POST_SEEK_GRACE_MS, true, Some(0.0)), Look(seekMs + STALL_SEEK_GAP_MS, true, Some(0.0))]
      + FrozenLooks(seekMs + STALL_SEEK_GAP_MS, n - 1)
  }

  lemma {:induction false} FrozenPlayheadIsWritten(seekMs: real, n: nat)
    ensures Within(FrozenLooks(seekMs, n), seekMs, seekMs + n as real * STALL_SEEK_GAP_MS)
    ensures |StallWrites(StallProbe(None, Some(seekMs)), FrozenLooks(seekMs, n))| == n
    decreases n
  {
    if n > 0 {
      var first := Look(seekMs + CATCH_UP_STALL_POST_SEEK_GRACE_MS, true, Some(0.0));
      var second := Look(seekMs + STALL_SEEK_GAP_MS, true, Some(0.0));
      var rest := FrozenLooks(seekMs + STALL_SEEK_GAP_MS, n - 1);
      FrozenPlayheadIsWritten(seekMs + STALL_SEEK_GAP_MS, n - 1);
      var looks := FrozenLooks(seekMs, n);
      assert looks == [first, second] + rest && looks[1..] == [second] + rest && looks[1..][1..] == rest;
    }
  }

  /** How many playhead writes stalls can force on one anchor: the budget plays no part, only
      time does. Within `toMs` of a seek there is a run with `n` of them exactly when `n` gaps
      of 3.3 s fit. */
  lemma StallWritesIff(n: nat, seekMs: real, toMs: real)
    requires seekMs <= toMs
    ensures (exists looks :: Within(looks, seekMs, toMs) && |StallWrites(StallProbe(None, Some(seekMs)), looks)| == n)
            <==> n as real * STALL_SEEK_GAP_MS <= toMs - seekMs
  {
    var p := StallProbe(None, Some(seekMs));
    if looks :| Within(looks, seekMs, toMs) && |StallWrites(p, looks)| == n {
      StallWritesTakeTime(p, looks, seekMs, seekMs, toMs);
    }
    if n as real * STALL_SEEK_GAP_MS <= toMs - seekMs {
      FrozenPlayheadIsWritten(seekMs, n);
      WithinLater(FrozenLooks(seekMs, n), seekMs, seekMs + n as real * STALL_SEEK_GAP_MS, toMs);
    }
  }

  lemma {:induction false} WithinLater(looks: seq<Look>, fromMs: real, toMs: real, laterMs: real)
    requires Within(looks, fromMs, toMs) && toMs <= laterMs
    ensures Within(looks, fromMs, laterMs)
    decreases |looks|
  {
    if looks != [] {
      WithinLater(looks[1..], looks[0].atMs, toMs, laterMs);
    }
  }

  // ---------------------------------------------------------------- budgets over a run of seeks

  /** Consuming the budget once per anchor in the list, in order. */
  function ConsumeAll(b: AnchorBudget, anchors: seq<real>, max: nat): (AnchorBudget, seq<bool>)
    decreases |anchors|
  {
    if anchors == [] then (b, [])
    else
      var (next, consumed) := TryConsume(b, anchors[0], max);
      var (last, rest) := ConsumeAll(next, anchors[1..], max);
      (last, [consumed] + rest)
  }

  function Granted(grants: seq<bool>): nat
    decreases |grants|
  {
    if grants == [] then 0 else (if grants[0] then 1 else 0) + Granted(grants[1..])
  }

  /** While the anchor stays the same at most `max` requests are granted, however many are
      made, and they are the first ones. */
  lemma {:induction false} GrantsPerAnchor(b: AnchorBudget, anchors: seq<real>, max: nat, anchorMs: real)
    requires forall i | 0 <= i < |anchors| :: anchors[i] == anchorMs
    requires b.anchorMs == anchorMs && b.count <= max
    ensures Granted(ConsumeAll(b, anchors, max).1) == MinInt(|anchors|, max - b.count)
    ensures |ConsumeAll(b, anchors, max).1| == |anchors|
    ensures forall i | 0 <= i < |anchors| :: ConsumeAll(b, anchors, max).1[i] == (i < max - b.count)
    decreases |anchors|
  {
    if anchors != [] {
      var (next, consumed) := TryConsume(b, anchors[0], max);
      GrantsPerAnchor(next, anchors[1..], max, anchorMs);
      var rest := ConsumeAll(next, anchors[1..], max).1;
      assert ConsumeAll(b, anchors, max).1 == [consumed] + rest;
      assert ([consumed] + rest)[1..] == rest;
    }
  }
}
