/** The playback sync engine: one scheduler for clock applies, verify bursts, transport
    nudges, catch-up rate and the drift watchdog. */
module PlaybackEngine {
  import opened Js
  import opened PlaybackSync
  import opened ApplyPlaybackSync
  import opened NativeSync
  import opened SyncHost

  datatype Phase = Idle | Applying | Verifying | HoldingLocalSeek

  const CATCH_UP_STALL_MIN_ADVANCE_SEC: real := 0.15
  const CATCH_UP_STALL_WINDOW_MS: real := 800.0
  const CATCH_UP_STALL_POST_SEEK_GRACE_MS: real := 2500.0

  datatype AnchorBudget = AnchorBudget(anchorMs: real, count: nat)

  function ResetBudget(b: AnchorBudget, anchorMs: real): AnchorBudget {
    if b.anchorMs == anchorMs then b else AnchorBudget(anchorMs, 0)
  }

  function TryConsume(b: AnchorBudget, anchorMs: real, max: nat): (r: (AnchorBudget, bool))
    ensures r.0.anchorMs == anchorMs
    ensures b.anchorMs == anchorMs ==> b.count <= r.0.count <= MaxInt(b.count, max)
    ensures b.anchorMs != anchorMs ==> r.0.count <= max
    ensures r.1 ==> r.0.count <= max
    ensures r.1 <==> ResetBudget(b, anchorMs).count < max
  {
    var next := ResetBudget(b, anchorMs);
    if next.count >= max then (next, false) else (next.(count := next.count + 1), true)
  }

  /** What one apply does about the playhead: the threshold handed to the player write, and
      whether the rate closes the gap instead of a seek. */
  datatype Plan = Plan(threshold: Num, catchUp: bool)

  /** The playing-path order: an outstanding confirm near the room suppresses a re-force, an
      explicit or tighter threshold forces, mid-range HTML5 drift goes to the rate. */
  function PlanCorrection(nativeMode: bool, paused: bool, gated: bool, explicit: Option<real>, chosen: Option<Num>,
                          drift: Option<real>, softSec: real, hasProbe: bool): Plan
  {
    var suppressed := (nativeMode || !paused) && hasProbe && explicit.None? && chosen == Some(Fin(0.0))
                      && drift.Some? && drift.value <= softSec;
    var eff := if suppressed then Some(PosInf) else chosen;
    var forcing := explicit.Some? || eff == Some(Fin(0.0))
                   || (eff.Some? && eff.value.Fin? && eff.value.value < softSec);
    var catchUp := !nativeMode && !paused && !gated && !forcing && drift.Some? && InCatchUpBand(drift.value, softSec);
    if catchUp then Plan(PosInf, true)
    else Plan(if eff.Some? then eff.value else Fin(DEFAULT_DRIFT_THRESHOLD_SEC), false)
  }

  datatype StallSample = StallSample(atMs: real, mediaSec: real)

  /** The stall probe: a sample of a frozen playhead, and when a seek was last attempted. */
  datatype StallProbe = StallProbe(sample: Option<StallSample>, lastSeekMs: Option<real>)

  /** One stall judgement: a lagging playhead that has not advanced over the stall window is
      stalled; first sight only arms the sample, and a recent seek suppresses the judgement. */
  function JudgeStall(p: StallProbe, nowMs: real, lagging: bool, media: Option<real>): (StallProbe, bool) {
    if !lagging then (p.(sample := None), false)
    else if media.None? then (p, false)
    else if p.lastSeekMs.Some? && nowMs - p.lastSeekMs.value < CATCH_UP_STALL_POST_SEEK_GRACE_MS then
      (p.(sample := None), false)
    else if p.sample.None? then (p.(sample := Some(StallSample(nowMs, media.value))), false)
    else if nowMs - p.sample.value.atMs < CATCH_UP_STALL_WINDOW_MS then (p, false)
    else if media.value - p.sample.value.mediaSec >= CATCH_UP_STALL_MIN_ADVANCE_SEC then
      (p.(sample := Some(StallSample(nowMs, media.value))), false)
    else (p.(sample := None), true)
  }

  /** The least time between two playhead writes forced by a stall: grace, then one window. */
  const STALL_SEEK_GAP_MS: real := CATCH_UP_STALL_POST_SEEK_GRACE_MS + CATCH_UP_STALL_WINDOW_MS

  /** A sample was armed after the grace of the last seek, and `seeks`, the playhead writes that
      stalls have forced, keep their distance and end no later than the last seek. */
  ghost predicate StallPaced(p: StallProbe, seeks: seq<real>, nowMs: real) {
    && (p.lastSeekMs.Some? ==> p.lastSeekMs.value <= nowMs)
    && (p.sample.Some? ==> p.sample.value.atMs <= nowMs)
    && (p.sample.Some? && p.lastSeekMs.Some? ==>
          p.sample.value.atMs - p.lastSeekMs.value >= CATCH_UP_STALL_POST_SEEK_GRACE_MS)
    && (forall i | 0 < i < |seeks| :: seeks[i] - seeks[i - 1] >= STALL_SEEK_GAP_MS)
    && (seeks != [] ==> p.lastSeekMs.Some? && seeks[|seeks| - 1] <= p.lastSeekMs.value)
  }

  lemma StallPacedLater(p: StallProbe, p': StallProbe, seeks: seq<real>, nowMs: real, laterMs: real)
    requires StallPaced(p, seeks, nowMs) && nowMs <= laterMs && (p'.sample == None || p'.sample == p.sample)
    requires p'.lastSeekMs == p.lastSeekMs
             || (p'.sample == None && p'.lastSeekMs.Some? && nowMs <= p'.lastSeekMs.value <= laterMs)
    ensures StallPaced(p', seeks, laterMs)
  {
  }

  lemma FreshStallPaced(nowMs: real)
    ensures StallPaced(StallProbe(None, None), [], nowMs)
  {
  }

  lemma QuietIsNotStalled(p: StallProbe, nowMs: real, lagging: bool, media: Option<real>)
    ensures (p.sample.Some? ==> media.Some? && media.value - p.sample.value.mediaSec >= CATCH_UP_STALL_MIN_ADVANCE_SEC) ==>
              var (q, stalled) := JudgeStall(p, nowMs, lagging, media);
              !stalled && (q.sample.Some? ==> media.Some? && q.sample.value.mediaSec <= media.value)
  {
  }

  lemma JudgePaced(p: StallProbe, seeks: seq<real>, startMs: real, nowMs: real, lagging: bool, media: Option<real>)
    requires StallPaced(p, seeks, startMs) && startMs <= nowMs
    ensures StallPaced(p, seeks, nowMs) && StallPaced(JudgeStall(p, nowMs, lagging, media).0, seeks, nowMs)
  {
  }

  /** A stalled verdict comes a gap after the last write that a stall forced. */
  lemma StalledIsDue(p: StallProbe, seeks: seq<real>, startMs: real, nowMs: real, lagging: bool, media: Option<real>)
    requires StallPaced(p, seeks, startMs) && startMs <= nowMs && JudgeStall(p, nowMs, lagging, media).1
    ensures SeekDue(seeks, nowMs)
  {
  }

  ghost predicate SeekDue(seeks: seq<real>, nowMs: real) {
    seeks != [] ==> nowMs - seeks[|seeks| - 1] >= STALL_SEEK_GAP_MS
  }

  lemma StallSeekPaced(p: StallProbe, seeks: seq<real>, startMs: real, nowMs: real, notedMs: real, laterMs: real)
    requires StallPaced(p, seeks, startMs) && SeekDue(seeks, nowMs) && nowMs <= notedMs <= laterMs
    ensures StallPaced(StallProbe(None, Some(notedMs)), seeks + [notedMs], laterMs)
  {
  }

  /** Ids of the verify burst and of the transport burst. */
  datatype Timers = Timers(retry: seq<nat>, pause: seq<nat>)

  /** Force seeks and muted escalations spent on the current anchor. */
  datatype Budgets = Budgets(force: AnchorBudget, escalate: AnchorBudget)

  /** When the last apply read the clock to decide, when the last drift measurement was
      taken, and whether the last apply was cut short by a throwing player or host. */
  datatype Trace = Trace(decidedAtMs: real, measuredAtMs: real, threw: bool)

  datatype DriftAction = Noop | Clear | Apply

  function PlanDriftCorrection(drift: Option<real>, thresholdSec: real): DriftAction {
    if drift.None? then Noop else if drift.value <= thresholdSec then Clear else Apply
  }

  /** Every armed timer is one the engine knows under the right kind, and every id is old. */
  ghost predicate TimersAgree(armed: map<nat, Timeout>, nextId: nat, retry: seq<nat>, pause: seq<nat>) {
    && (forall id | id in armed :: id < nextId && id in (if armed[id].task.VerifyTick? then retry else pause))
    && (forall id | id in retry :: id < nextId && (id in armed ==> armed[id].task.VerifyTick?))
    && (forall id | id in pause :: id < nextId && (id in armed ==> armed[id].task.TransportTick?))
  }

  lemma RetryCleared(armed: map<nat, Timeout>, nextId: nat, retry: seq<nat>, pause: seq<nat>)
    requires TimersAgree(armed, nextId, retry, pause)
    ensures TimersAgree(Without(armed, retry), nextId, [], pause)
    ensures forall id | id in Without(armed, retry) :: armed[id].task.TransportTick?
  {
  }

  lemma PauseCleared(armed: map<nat, Timeout>, nextId: nat, retry: seq<nat>, pause: seq<nat>)
    requires TimersAgree(armed, nextId, retry, pause)
    ensures TimersAgree(Without(armed, pause), nextId, retry, [])
  {
  }

  lemma BurstAgrees(armed: map<nat, Timeout>, nextId: nat, retry: seq<nat>, pause: seq<nat>,
                    task: Task, nowMs: real, delays: seq<real>)
    requires TimersAgree(armed, nextId, retry, pause)
    requires if task.VerifyTick? then retry == [] else pause == []
    ensures var ids := Ids(nextId, |delays|);
            TimersAgree(Burst(armed, nextId, task, nowMs, delays), nextId + |delays|,
                        if task.VerifyTick? then ids else retry, if task.VerifyTick? then pause else ids)
  {
    var ids := Ids(nextId, |delays|);
    forall id | nextId <= id < nextId + |delays|
      ensures id in ids
    {
      assert ids[id - nextId] == id;
    }
  }

  /** The threshold of a force seek: the requested one; else zero for the first budgeted seek of
      an anchor and for every budgeted iframe seek, the soft one otherwise. */
  function ForceThreshold(requested: Option<real>, spent: bool, first: bool, nativeMode: bool, softSec: real): real {
    if requested.Some? then requested.value else if !spent && (first || nativeMode) then 0.0 else softSec
  }

  function Remove(ids: seq<nat>, id: nat): seq<nat>
    decreases |ids|
  {
    if ids == [] then [] else if ids[0] == id then ids[1..] else [ids[0]] + Remove(ids[1..], id)
  }

  lemma {:induction false} RemoveOne(ids: seq<nat>, id: nat)
    ensures |Remove(ids, id)| <= |ids|
    ensures forall x | x in Remove(ids, id) :: x in ids
    ensures forall x | x in ids && x != id :: x in Remove(ids, id)
    decreases |ids|
  {
    if ids != [] {
      RemoveOne(ids[1..], id);
      assert ids == [ids[0]] + ids[1..];
    }
  }

  /** Firing a timer keeps the bookkeeping in step once a verify id is dropped. */
  lemma FiredAgrees(armed: map<nat, Timeout>, nextId: nat, retry: seq<nat>, pause: seq<nat>, id: nat)
    requires TimersAgree(armed, nextId, retry, pause) && id in armed
    ensures TimersAgree(armed - {id}, nextId, if armed[id].task.VerifyTick? then Remove(retry, id) else retry, pause)
    ensures |Remove(retry, id)| <= |retry|
  {
    RemoveOne(retry, id);
  }

  /** The catch-up rate in force after a rate-only correction. */
  function RateAfter(sync: SyncState, driftSec: real, softSec: real, current: Option<real>): Option<real> {
    if driftSec <= CATCH_UP_CLEAR_DRIFT_SEC then None
    else if driftSec <= softSec then current
    else CatchUpRate(sync.playbackRate, driftSec, softSec)
  }

  /** The player a rate change falls on, if there is one. */
  /** The rate override after an apply: none for an iframe, a held seek, a paused room or a closed
      gap; the boost where the rate closes the gap; none again once the gap is unknown or too far. */
  function LocalRate(sync: SyncState, unboosted: bool, catchUp: bool, drift: Option<real>, softSec: real, current: Option<real>): Option<real> {
    if unboosted || sync.paused || (drift.Some? && drift.value <= CATCH_UP_CLEAR_DRIFT_SEC) then None
    else if catchUp && drift.Some? && CatchUpRate(sync.playbackRate, drift.value, softSec).Some? then
      CatchUpRate(sync.playbackRate, drift.value, softSec)
    else if drift.None? || drift.value > CATCH_UP_DRIFT_MAX_SEC then None
    else current
  }

  lemma LocalRateFits(sync: SyncState, unboosted: bool, catchUp: bool, drift: Option<real>, softSec: real, current: Option<real>)
    requires softSec >= CATCH_UP_CLEAR_DRIFT_SEC
    ensures unboosted || sync.paused || drift.None? || drift.value <= CATCH_UP_CLEAR_DRIFT_SEC || drift.value > CATCH_UP_DRIFT_MAX_SEC ==>
              LocalRate(sync, unboosted, catchUp, drift, softSec, current) == None
    ensures catchUp && !unboosted && !sync.paused && drift.Some? && CatchUpRate(sync.playbackRate, drift.value, softSec).Some? ==>
              LocalRate(sync, unboosted, catchUp, drift, softSec, current) == CatchUpRate(sync.playbackRate, drift.value, softSec)
  {
  }

  /** What an apply finds: the writes and calls so far, the play state, the verify burst in flight,
      the escalation budget and the anchor applied last. */
  datatype Found = Found(writes: seq<real>, calls: seq<bool>, playing: bool, retry: seq<nat>, escalate: AnchorBudget,
                         anchorMs: Option<real>)

  /** Play or pause was asked for last, after what was asked before. */
  predicate Asked(before: seq<bool>, after: seq<bool>, pause: bool) {
    before <= after && |after| > |before| && after[|after| - 1] == pause
  }

  lemma AskedMore(before: seq<bool>, between: seq<bool>, after: seq<bool>, pause: bool)
    requires before <= between <= after
    ensures before <= after
    ensures Asked(before, between, pause) && (after == between || Asked(between, after, pause)) ==> Asked(before, after, pause)
    ensures Asked(between, after, pause) ==> Asked(before, after, pause)
  {
  }

  function Targets(p: Player?): set<Player> {
    if p == null then {} else {p}
  }

  class Engine {
    const host: Host
    const scheduler: Scheduler
    const native: NativeSyncTracker
    /** Bounds on what any installed tuning asks for. */
    ghost const budgetCap: nat
    ghost const burstCap: nat

    var phase: Phase
    var holdLocalSeek: bool
    var started: bool
    var disposed: bool
    var timers: Timers
    var initialSnapPending: bool
    var budgets: Budgets
    var stall: StallProbe
    var durationGated: bool

    ghost var trace: Trace
    /** When the last tick sampled the drift, and when the last stall judgement was made. */
    ghost var sampledMs: real
    ghost var judgedMs: real
    /** When stalls have forced a playhead write since the last reset. */
    ghost var stallSeeks: seq<real>

    constructor (host: Host, scheduler: Scheduler, native: NativeSyncTracker, ghost budgetCap: nat, ghost burstCap: nat)
      requires native.Valid() && scheduler.queue.armed == map[] && host.catchUpRate == None
      requires host.MaxForceSeeks() <= budgetCap && |host.RetryDelays()| <= burstCap
      ensures Valid() && phase == Idle && !holdLocalSeek && initialSnapPending
      ensures this.host == host && this.scheduler == scheduler && this.native == native
      ensures this.budgetCap == budgetCap && this.burstCap == burstCap
    {
      this.host, this.scheduler, this.native := host, scheduler, native;
      this.budgetCap, this.burstCap := budgetCap, burstCap;
      phase, holdLocalSeek, started, disposed := Idle, false, false, false;
      timers, initialSnapPending := Timers([], []), true;
      budgets := Budgets(AnchorBudget(0.0, 0), AnchorBudget(0.0, 0));
      stall, durationGated := StallProbe(None, None), false;
      trace, stallSeeks := Trace(0.0, 0.0, false), [];
      sampledMs, judgedMs := 0.0, 0.0;
    }

    // -------------------------------------------------------------- invariant

    ghost predicate TimersOk()
      reads `timers, scheduler`queue
    {
      |timers.retry| <= burstCap && TimersAgree(scheduler.queue.armed, scheduler.queue.nextId, timers.retry, timers.pause)
    }

    ghost predicate BudgetsOk()
      reads `budgets, host`tuning
    {
      && budgets.force.count <= budgetCap && budgets.escalate.count <= budgetCap
      && host.MaxForceSeeks() <= budgetCap && |host.RetryDelays()| <= burstCap
    }

    /** While a local seek is held nothing verifies and the room rate is in force. */
    ghost predicate HoldOk()
      reads `holdLocalSeek, `timers, host`catchUpRate
    {
      holdLocalSeek ==> timers.retry == [] && host.catchUpRate == None
    }

    ghost predicate Core()
      reads `timers, `budgets, `holdLocalSeek, host`tuning, host`catchUpRate, scheduler`queue, native
    {
      TimersOk() && BudgetsOk() && HoldOk() && native.Valid()
    }

    ghost predicate StallOk()
      reads `stall, `stallSeeks, scheduler`now
    {
      StallPaced(stall, stallSeeks, scheduler.now)
    }

    /** Between calls: the core invariant, and never in the middle of an apply. */
    ghost predicate Valid()
      reads `timers, `budgets, `holdLocalSeek, `phase, `stall, `stallSeeks, host`tuning, host`catchUpRate, scheduler, native
    {
      Core() && StallOk() && (phase == Idle || phase == Verifying)
    }

    /** A seek was noted at `since` or after, and the stall sample dropped. */
    predicate SeekNoted(since: real)
      reads `stall, scheduler`now
    {
      stall.sample == None && stall.lastSeekMs.Some? && since <= stall.lastSeekMs.value <= scheduler.now
    }

    /** The stall probe after an apply: every playhead write is noted and drops the sample, and
        nothing else moves the last seek or arms a sample. */
    twostate predicate SeeksNoted(player: Player)
      reads `stall, scheduler`now, player`times
    {
      if player.times.writes == old(player.times.writes) then
        stall.lastSeekMs == old(stall.lastSeekMs) && (stall.sample == None || stall.sample == old(stall.sample))
      else
        SeekNoted(old(scheduler.now)) && |player.times.writes| > |old(player.times.writes)|
    }

    function Phase(): Phase
      reads `holdLocalSeek, `phase
    {
      if holdLocalSeek then HoldingLocalSeek else phase
    }

    predicate DurationIsReady(player: Player)
      reads host`durationHint, player`times
    {
      DurationReady(player.times.duration, host.durationHint)
    }

    function SyncBounds(player: Player): Bounds
      reads host`durationHint, player`times
    {
      player.Bounds(host.VodHint(), host.durationHint.PosInf?)
    }

    /** Seek confirmation: always for iframes, for HTML5 only in a playing room. */
    predicate ConfirmsSeeks(sync: SyncState)
      reads host`tuning
    {
      host.IsNative() || !sync.paused
    }

    /** Nothing is left to wait for on the provider's side. */
    ghost predicate Settled(player: Player, sync: SyncState)
      reads `durationGated, host`tuning, host`durationHint, native`probe, native`pauseSettled, player`times
    {
      && (ConfirmsSeeks(sync) ==> native.probe == None)
      && (host.IsNative() && sync.paused ==> native.pauseSettled)
      && (host.IsNative() ==> DurationIsReady(player) && !durationGated)
    }

    // -------------------------------------------------------------- timers and rate

    method ClearRetryTimers()
      requires TimersOk()
      modifies `timers, scheduler`queue
      ensures TimersOk() && timers == Timers([], old(timers.pause))
      ensures scheduler.queue == Queue(Without(old(scheduler.queue.armed), old(timers.retry)), old(scheduler.queue.nextId))
    {
      RetryCleared(scheduler.queue.armed, scheduler.queue.nextId, timers.retry, timers.pause);
      scheduler.ClearAll(timers.retry);
      timers := timers.(retry := []);
    }

    method ClearPauseTimers()
      requires TimersOk()
      modifies `timers, scheduler`queue
      ensures TimersOk() && timers == Timers(old(timers.retry), [])
      ensures scheduler.queue == Queue(Without(old(scheduler.queue.armed), old(timers.pause)), old(scheduler.queue.nextId))
    {
      PauseCleared(scheduler.queue.armed, scheduler.queue.nextId, timers.retry, timers.pause);
      scheduler.ClearAll(timers.pause);
      timers := timers.(pause := []);
    }

    /** Back to the room rate on `target`, when a catch-up rate was in force. */
    method ClearCatchUpRate(target: Player?)
      modifies host`catchUpRate, Targets(target)`rates
      ensures host.catchUpRate == None
      ensures target != null ==>
                var roomRate := host.playback.playbackRate;
                if old(host.catchUpRate) == None then
                  target.rates == old(target.rates)
                else
                  target.rates.writes == old(target.rates.writes) + [roomRate]
                  && (target.obeysRates ==> target.RunsAt(roomRate))
    {
      if host.catchUpRate == None {
        return;
      }
      host.catchUpRate := None;
      if target != null {
        target.WriteRate(host.playback.playbackRate);
      }
    }

    method ActivateCatchUpRate(player: Player, sync: SyncState, driftSec: real) returns (rate: Option<real>)
      modifies host`catchUpRate, player`rates
      ensures rate == CatchUpRate(sync.playbackRate, driftSec, host.SoftThreshold())
      ensures host.catchUpRate == if rate.Some? then rate else old(host.catchUpRate)
      ensures player.rates.writes == old(player.rates.writes) + if rate.Some? then [rate.value] else []
      ensures rate.Some? && player.obeysRates ==> player.RunsAt(rate.value)
      ensures rate.None? ==> player.rates == old(player.rates)
    {
      rate := CatchUpRate(sync.playbackRate, driftSec, host.SoftThreshold());
      if rate.None? {
        return;
      }
      host.catchUpRate := rate;
      player.WriteRate(rate.value);
    }

    method NoteSeekAttempt(nowMs: real)
      modifies `stall
      ensures stall == StallProbe(None, Some(nowMs))
    {
      stall := stall.(lastSeekMs := Some(nowMs));
      stall := stall.(sample := None);
    }

    function StallMediaSec(player: Player): Option<real>
      reads player`times
    {
      if player.hasMediaEl then Finite(player.times.el) else Finite(player.Playhead())
    }

    predicate Lagging(sync: SyncState, drift: Option<real>)
      reads host`rttMs
    {
      !sync.paused && drift.Some? && drift.value > host.SoftThreshold()
    }

    /** A playhead that has not advanced over the stall window while lagging: first sight
        only arms the sample, and a recent seek suppresses the judgement. */
    method ShouldEscalateStall(player: Player, sync: SyncState, drift: Option<real>) returns (stalled: bool)
      modifies `stall, scheduler`now
      ensures old(scheduler.now) <= scheduler.now && (scheduler.steady ==> scheduler.now == old(scheduler.now))
      ensures (stall, stalled) == JudgeStall(old(stall), scheduler.now, Lagging(sync, drift), StallMediaSec(player))
      ensures stalled ==>
                && stall.sample == None && !sync.paused
                && drift.Some? && drift.value > host.SoftThreshold()
                && old(stall.sample).Some? && StallMediaSec(player).Some?
                && scheduler.now - old(stall.sample).value.atMs >= CATCH_UP_STALL_WINDOW_MS
                && StallMediaSec(player).value - old(stall.sample).value.mediaSec < CATCH_UP_STALL_MIN_ADVANCE_SEC
                && (stall.lastSeekMs.Some? ==> scheduler.now - stall.lastSeekMs.value >= CATCH_UP_STALL_POST_SEEK_GRACE_MS)
      ensures stalled ==>
                var shown := if player.hasMediaEl then player.times.el else player.times.wrapper;
                shown.Fin? && shown.value - old(stall.sample).value.mediaSec < CATCH_UP_STALL_MIN_ADVANCE_SEC
      ensures player.hasMediaEl && !player.times.el.Fin? ==> !stalled
      ensures !stalled && stall.sample.Some? ==>
                stall.sample == old(stall.sample)
                || (StallMediaSec(player).Some? && stall.sample == Some(StallSample(scheduler.now, StallMediaSec(player).value)))
    {
      if sync.paused || drift.None? || drift.value <= host.SoftThreshold() {
        stall := stall.(sample := None);
        return false;
      }
      var media := StallMediaSec(player);
      if media.None? {
        return false;
      }
      var nowMs := scheduler.NowMs();
      if stall.lastSeekMs.Some? && nowMs - stall.lastSeekMs.value < CATCH_UP_STALL_POST_SEEK_GRACE_MS {
        stall := stall.(sample := None);
        return false;
      }
      if stall.sample.None? {
        stall := stall.(sample := Some(StallSample(nowMs, media.value)));
        return false;
      }
      if nowMs - stall.sample.value.atMs < CATCH_UP_STALL_WINDOW_MS {
        return false;
      }
      if media.value - stall.sample.value.mediaSec >= CATCH_UP_STALL_MIN_ADVANCE_SEC {
        stall := stall.(sample := Some(StallSample(nowMs, media.value)));
        return false;
      }
      stall := stall.(sample := None);
      return true;
    }

    method MeasureDrift(player: Player, sync: SyncState) returns (drift: Option<real>)
      modifies scheduler`now, `trace
      ensures old(scheduler.now) <= scheduler.now && (scheduler.steady ==> scheduler.now == old(scheduler.now))
      ensures trace == old(trace).(measuredAtMs := scheduler.now)
      ensures drift == host.Drift(player, sync, trace.measuredAtMs)
    {
      var nowMs := scheduler.NowMs();
      trace := trace.(measuredAtMs := nowMs);
      drift := host.Drift(player, sync, nowMs);
    }

    // -------------------------------------------------------------- transport

    /** Sample a paused iframe; keep pausing it until it is quiescent. */
    method SettleNativePause(player: Player) returns (quiescent: bool)
      modifies native, scheduler`now, player`transport
      ensures native.probe == old(native.probe) && native.seekFailures == old(native.seekFailures)
      ensures old(scheduler.now) <= scheduler.now && (scheduler.steady ==> scheduler.now == old(scheduler.now))
      ensures quiescent ==> native.pauseSettled && player.transport == old(player.transport)
      ensures var nowMs := scheduler.now;
              var v := old(SamplePause(native.State(), PauseReading(player.Playhead(), player.transport.wrapperPaused, nowMs)));
              native.State() == v.0 && quiescent == v.1.quiescent
      ensures player.transport.calls == old(player.transport.calls) + if quiescent then [] else [true]
    {
      var nowMs := scheduler.NowMs();
      var v := native.SampleQuiescence(PauseReading(player.Playhead(), player.transport.wrapperPaused, nowMs));
      quiescent := v.quiescent;
      if !quiescent {
        player.Call(true);
      }
    }

    /** One burst of transport nudges on the pause schedule, replacing the previous one; a
        play burst is not scheduled while the authority is paused. */
    method ScheduleTransportBurst(paused: bool)
      requires TimersOk()
      modifies `timers, scheduler`queue
      ensures TimersOk()
      ensures timers.retry == old(timers.retry)
      ensures !paused && host.authorityPaused ==> timers == old(timers) && scheduler.queue == old(scheduler.queue)
      ensures paused || !host.authorityPaused ==>
                timers.pause == Ids(old(scheduler.queue.nextId), |host.PauseRetryDelays()|)
                && scheduler.queue.armed == Burst(Without(old(scheduler.queue.armed), old(timers.pause)), old(scheduler.queue.nextId),
                                            TransportTick(paused), scheduler.now, host.PauseRetryDelays())
    {
      if !paused && host.authorityPaused {
        return;
      }
      ClearPauseTimers();
      BurstAgrees(scheduler.queue.armed, scheduler.queue.nextId, timers.retry, timers.pause,
                  TransportTick(paused), scheduler.now, host.PauseRetryDelays());
      var ids := scheduler.SetAll(TransportTick(paused), host.PauseRetryDelays());
      timers := timers.(pause := ids);
    }

    /** What a timer of a nudge burst does: nothing once the authority has changed its mind, else
        it asks an element that does not follow again, and samples a paused iframe first. */
    twostate predicate NudgeTicked(player: Player, paused: bool)
      reads `disposed, host`tuning, host`authorityPaused, host`mediaReady, scheduler`now, native, player`times, player`transport
    {
      var calls := old(player.transport.calls);
      if disposed || paused != host.authorityPaused || (!paused && !host.mediaReady) then
        player.transport == old(player.transport)
      else if paused && host.IsNative() then
        var nowMs := scheduler.now;
        var v := old(SamplePause(native.State(), PauseReading(player.Playhead(), player.transport.wrapperPaused, nowMs)));
        native.State() == v.0 && player.transport.calls == calls + if v.1.quiescent then [] else [true]
      else if old(player.IsPlaying()) == !paused then
        player.transport == old(player.transport)
      else
        Asked(calls, player.transport.calls, paused)
    }

    method RunTransportTick(paused: bool)
      requires Valid()
      modifies native, scheduler`now,
               Targets(host.player)`transport
      ensures Valid()
      ensures host.player != null ==> NudgeTicked(host.player, paused)
    {
      if disposed {
        return;
      }
      var player := host.player;
      if paused {
        if !host.authorityPaused || player == null {
          return;
        }
        if host.IsNative() {
          var _ := SettleNativePause(player);
        } else if player.IsPlaying() {
          NudgeTransport(player, true);
        }
      } else {
        if !host.mediaReady || host.authorityPaused || player == null || player.IsPlaying() {
          return;
        }
        NudgeTransport(player, false);
      }
    }

    // -------------------------------------------------------------- applying the room clock

    /** The duration gate, the late-join snap and the one-off iframe pause seek decide the
        threshold this apply starts from; absent means the default. */
    method ChooseThreshold(player: Player, sync: SyncState, explicit: Option<real>)
      returns (gated: bool, reapply: bool, snap: bool, chosen: Option<Num>)
      modifies `durationGated, native`pauseSeekKey
      ensures gated <==> host.IsNative() && !DurationIsReady(player)
      ensures durationGated == (gated || (!host.IsNative() && old(durationGated)))
      ensures reapply <==> host.IsNative() && !gated && old(durationGated)
      ensures snap <==> !gated && initialSnapPending && host.mediaReady
      ensures chosen == if gated then Some(PosInf) else if explicit.Some? then Some(Fin(explicit.value))
                        else if old(ForcesItself(sync)) then Some(Fin(0.0)) else None
      ensures native.pauseSeekKey == if old(ClaimsPause(player, sync, explicit)) then Some((sync.timelineAnchorMs, sync.serverNowMs))
                                     else old(native.pauseSeekKey)
    {
      gated := host.IsNative() && !DurationIsReady(player);
      if gated {
        durationGated := true;
      }
      reapply := host.IsNative() && !gated && durationGated;
      if reapply {
        durationGated := false;
      }
      snap := !gated && initialSnapPending && host.mediaReady;
      chosen := if explicit.Some? then Some(Fin(explicit.value)) else if snap || reapply then Some(Fin(0.0)) else None;
      if gated {
        chosen := Some(PosInf);
      } else if host.IsNative() && sync.paused && chosen.None? {
        var first := native.ClaimPauseSeek((sync.timelineAnchorMs, sync.serverNowMs));
        if first {
          chosen := Some(Fin(0.0));
        }
      }
    }

    /** A throwing player or host: keep the snapshot pending and let the ticks retry. */
    method FailApply(sync: SyncState)
      modifies host`pending, host`applyFailures, `phase, `trace
      ensures host.pending == Some(sync) && phase == Verifying && trace == old(trace).(threw := true)
      ensures host.applyFailures == old(host.applyFailures) + 1
    {
      host.pending := Some(sync);
      host.applyFailures := host.applyFailures + 1;
      phase := Verifying;
      trace := trace.(threw := true);
    }

    /** Note a seek write with the tracker, or judge the outstanding one. */
    method ConfirmSeek(player: Player, sync: SyncState, gated: bool, result: ClockResult, before: Num, nowMs: real)
      returns (pending: bool)
      requires native.Valid()
      modifies native, `stall
      ensures native.Valid()
      ensures ConfirmsSeeks(sync) && !gated && !pending ==> native.probe == None
      ensures pending ==> native.probe.Some? && ConfirmsSeeks(sync) && !gated
      ensures native.pauseSeekKey == old(native.pauseSeekKey)
      ensures stall == if result.seekAttempted then StallProbe(None, Some(nowMs)) else old(stall)
      ensures !ConfirmsSeeks(sync) || gated ==> !pending && native.State() == old(native.State())
      ensures ConfirmsSeeks(sync) && !gated && result.seekAttempted ==>
                && pending && native.State() == NoteSeek(old(native.State()), sync.timelineAnchorMs, before, Fin(result.targetSec), nowMs)
                && native.probe.value.anchorMs == sync.timelineAnchorMs && native.probe.value.target == Fin(result.targetSec)
      ensures ConfirmsSeeks(sync) && !gated && !result.seekAttempted ==>
                (native.State(), pending) == (var v := EvaluateSeek(old(native.State()),
                                                SeekReading(sync.timelineAnchorMs, player.Playhead(), result.driftSec,
                                                            host.SoftThreshold(), sync.paused, nowMs));
                                              (v.0, v.1 == Pending))
    {
      pending := false;
      if result.seekAttempted {
        NoteSeekAttempt(nowMs);
      }
      if ConfirmsSeeks(sync) && !gated {
        if result.seekAttempted {
          native.NoteSeekWrite(sync.timelineAnchorMs, before, Fin(result.targetSec), nowMs);
          pending := true;
        } else if native.probe.Some? {
          var v := native.Evaluate(SeekReading(sync.timelineAnchorMs, player.Playhead(), result.driftSec,
                                               host.SoftThreshold(), sync.paused, nowMs));
          pending := v == Pending;
        }
      }
    }

    predicate EchoUnconfirmed(player: Player, result: ClockResult)
      reads host`tuning, player`times
    {
      !host.IsNative() && result.seekAttempted && player.hasMediaEl
      && IsWrapperMediaEcho(player.times.el, player.times.wrapper, Fin(result.targetSec), DEFAULT_DRIFT_THRESHOLD_SEC)
    }

    /** The wrapper of an HTML5 player is where it was written last, the element is not. */
    predicate Echoes(player: Player)
      reads host`tuning, player`times
    {
      var writes := player.times.writes;
      !host.IsNative() && player.hasMediaEl && writes != []
      && IsWrapperMediaEcho(player.times.el, player.times.wrapper, Fin(writes[|writes| - 1]), DEFAULT_DRIFT_THRESHOLD_SEC)
    }

    /** The element of a paused room is not where the seek put it. */
    predicate IgnoredSeek(player: Player, sync: SyncState, targetSec: real, atMs: real)
      reads host`tuning, host`rttMs, host`durationHint, player`times
    {
      && !host.IsNative() && sync.paused && player.hasMediaEl && player.times.el.Fin?
      && Abs(player.times.el.value - targetSec) > host.SoftThreshold()
      && host.Drift(player, sync, atMs).Some? && host.Drift(player, sync, atMs).value > host.SoftThreshold()
    }

    /** Measure again; a paused element that ignored the seek gets one budgeted muted
        play-seek-pause and a last measurement. */
    method MeasureAndEscalate(player: Player, sync: SyncState, result: ClockResult) returns (drift: Option<real>, ghost firstMs: real)
      requires BudgetsOk()
      modifies scheduler`now, `trace, `budgets, `stall,
               player`times,
               player`transport
      ensures BudgetsOk()
      ensures old(scheduler.now) <= scheduler.now && (scheduler.steady ==> scheduler.now == old(scheduler.now))
      ensures trace == old(trace).(measuredAtMs := trace.measuredAtMs)
      ensures old(scheduler.now) <= firstMs <= trace.measuredAtMs <= scheduler.now
      ensures drift == host.Drift(player, sync, trace.measuredAtMs)
      ensures budgets.force == old(budgets.force)
      ensures SeeksNoted(player)
      ensures var at := firstMs;
              var due := result.seekAttempted && old(IgnoredSeek(player, sync, result.targetSec, at));
              var (budget, granted) := TryConsume(old(budgets.escalate), sync.timelineAnchorMs, host.MaxForceSeeks());
              && budgets.escalate == (if due then budget else old(budgets.escalate))
              && player.times.writes == old(player.times.writes) + (if due && granted then [result.targetSec] else [])
              && player.transport.calls == old(player.transport.calls) + (if due && granted then [false, true, true] else [])
              && (!(due && granted) ==> firstMs == trace.measuredAtMs && stall == old(stall)
                                        && player.times == old(player.times) && player.transport == old(player.transport))
      ensures !MayEscalate(sync) || !result.seekAttempted ==>
                player.times == old(player.times) && player.transport == old(player.transport)
                && stall == old(stall) && budgets == old(budgets)
      ensures SyncBounds(player) == old(SyncBounds(player))
    {
      drift := MeasureDrift(player, sync);
      firstMs := trace.measuredAtMs;
      var soft := host.SoftThreshold();
      if !host.IsNative() && sync.paused && result.seekAttempted && player.hasMediaEl && player.times.el.Fin?
         && Abs(player.times.el.value - result.targetSec) > soft && drift.Some? && drift.value > soft
      {
        var (budget, consumed) := TryConsume(budgets.escalate, sync.timelineAnchorMs, host.MaxForceSeeks());
        budgets := budgets.(escalate := budget);
        if consumed {
          EscalateSeekWhilePaused(player, result.targetSec);
          var nowMs := scheduler.NowMs();
          NoteSeekAttempt(nowMs);
          drift := MeasureDrift(player, sync);
        }
      }
    }

    /** Push the element towards the room's play state and arm or clear the nudge burst. */
    method ReconcileTransport(player: Player, sync: SyncState)
      requires Core()
      modifies native, `timers, scheduler`queue, player`transport
      ensures Core()
      ensures native.probe == old(native.probe) && native.pauseSeekKey == old(native.pauseSeekKey) && timers.retry == old(timers.retry)
      ensures native.State() == if sync.paused then old(native.State()) else old(ResetPauseSamples(native.State()))
      ensures if old(player.IsPlaying()) == !sync.paused then player.transport == old(player.transport)
              else Asked(old(player.transport.calls), player.transport.calls, sync.paused)
      ensures !sync.paused && old(player.IsPlaying()) ==> timers.pause == []
      ensures sync.paused ==>
                timers.pause == Ids(old(scheduler.queue.nextId), |host.PauseRetryDelays()|)
                && scheduler.queue.armed == Burst(Without(old(scheduler.queue.armed), old(timers.pause)), old(scheduler.queue.nextId),
                                            TransportTick(true), scheduler.now, host.PauseRetryDelays())
      ensures !sync.paused && !old(player.IsPlaying()) && !host.authorityPaused ==>
                timers.pause == Ids(old(scheduler.queue.nextId), |host.PauseRetryDelays()|)
                && scheduler.queue.armed == Burst(Without(old(scheduler.queue.armed), old(timers.pause)), old(scheduler.queue.nextId),
                                            TransportTick(false), scheduler.now, host.PauseRetryDelays())
      ensures player.obeysTransport ==> player.IsPlaying() == !sync.paused
    {
      if !sync.paused && !player.IsPlaying() {
        native.ResetPause();
        NudgeTransport(player, false);
        ScheduleTransportBurst(false);
      } else if sync.paused {
        if player.IsPlaying() {
          NudgeTransport(player, true);
        }
        ScheduleTransportBurst(true);
      } else {
        ClearPauseTimers();
        native.ResetPause();
      }
    }

    /** Replace the verify burst: none while a local seek is held, otherwise one timer per
        retry delay; the seek budgets survive a re-arm of the same anchor. */
    method ScheduleVerifyBurst(anchorMs: real)
      requires Core()
      modifies `timers, `budgets, `phase, scheduler`queue
      ensures Core()
      ensures phase == if holdLocalSeek || old(phase) == Applying then old(phase) else Verifying
      ensures budgets.force == ResetBudget(old(budgets.force), anchorMs) && budgets.escalate == ResetBudget(old(budgets.escalate), anchorMs)
      ensures holdLocalSeek ==> timers.retry == []
      ensures timers.pause == old(timers.pause)
      ensures !holdLocalSeek ==>
                timers.retry == Ids(old(scheduler.queue.nextId), |host.RetryDelays()|)
                && scheduler.queue.armed == Burst(Without(old(scheduler.queue.armed), old(timers.retry)), old(scheduler.queue.nextId),
                                            VerifyTick(anchorMs), scheduler.now, host.RetryDelays())
    {
      ClearRetryTimers();
      budgets := budgets.(force := ResetBudget(budgets.force, anchorMs));
      budgets := budgets.(escalate := ResetBudget(budgets.escalate, anchorMs));
      if holdLocalSeek {
        return;
      }
      if phase != Applying {
        phase := Verifying;
      }
      BurstAgrees(scheduler.queue.armed, scheduler.queue.nextId, timers.retry, timers.pause,
                  VerifyTick(anchorMs), scheduler.now, host.RetryDelays());
      var ids := scheduler.SetAll(VerifyTick(anchorMs), host.RetryDelays());
      timers := timers.(retry := ids);
    }

    /** The rate after an apply: room rate for iframes, paused rooms, held seeks and closed
        gaps; boosted while the rate is closing the gap; room rate again once it is too far. */
    method UpdateCatchUp(player: Player, sync: SyncState, catchUp: bool, drift: Option<real>)
      modifies `stall, host`catchUpRate, player`rates
      ensures stall.lastSeekMs == old(stall.lastSeekMs) && (stall.sample == None || stall.sample == old(stall.sample))
      ensures old(player.rates.writes) <= player.rates.writes
      ensures host.catchUpRate == LocalRate(sync, host.IsNative() || holdLocalSeek, catchUp, drift, host.SoftThreshold(), old(host.catchUpRate))
      ensures old(host.catchUpRate) != None && host.catchUpRate == None ==>
                stall.sample == None && (player.obeysRates ==> player.RunsAt(host.playback.playbackRate))
      ensures host.catchUpRate != None && host.catchUpRate != old(host.catchUpRate) && player.obeysRates ==>
                player.RunsAt(host.catchUpRate.value)
    {
      if host.IsNative() || sync.paused || holdLocalSeek {
        ClearCatchUpRate(player);
        stall := stall.(sample := None);
      } else if drift.Some? && drift.value <= CATCH_UP_CLEAR_DRIFT_SEC {
        ClearCatchUpRate(player);
        stall := stall.(sample := None);
      } else if catchUp && drift.Some? && InCatchUpBand(drift.value, host.SoftThreshold()) {
        var _ := ActivateCatchUpRate(player, sync, drift.value);
      } else if host.catchUpRate != None && (drift.None? || drift.value > CATCH_UP_DRIFT_MAX_SEC) {
        ClearCatchUpRate(player);
        stall := stall.(sample := None);
      }
    }

    /** Outside a paused iframe: the element is in the room's play state, no confirmation is
        awaited, and the drift measured last is within the soft threshold. */
    ghost predicate InPlace(player: Player, sync: SyncState)
      reads `trace, host`tuning, host`rttMs, host`durationHint, native`probe, player`times, player`transport
    {
      && !(host.IsNative() && sync.paused)
      && player.IsPlaying() == !sync.paused && (ConfirmsSeeks(sync) ==> native.probe == None)
      && host.InSync(player, sync, trace.measuredAtMs, false)
    }

    /** What an apply that leaves nothing pending has established: the element's play state
        matches the room, no seek or pause confirmation and no duration gate is outstanding,
        and the drift measured last is within the soft threshold. */
    ghost predicate Converged(player: Player, sync: SyncState)
      reads `durationGated, `trace, host`tuning, host`rttMs, host`durationHint, native`probe, native`pauseSettled,
            player`times, player`transport
    {
      && player.IsPlaying() == !sync.paused
      && Settled(player, sync)
      && host.InSync(player, sync, trace.measuredAtMs, false)
    }

    /** The playhead write of the correction planned at `t`. */
    function PlannedWrite(player: Player, sync: SyncState, explicit: Option<real>, gated: bool, chosen: Option<Num>, t: real): seq<real>
      reads host`tuning, host`durationHint, host`rttMs, native`probe, player`times
    {
      PlannedOf(player.Playhead(), sync, t, SyncBounds(player), host.IsNative(), gated, explicit, chosen,
                host.SoftThreshold(), native.probe.Some?)
    }

    /** Decide on the correction and write rate and playhead: the first half of an apply. */
    method WriteClock(player: Player, sync: SyncState, explicit: Option<real>, gated: bool, chosen: Option<Num>)
      returns (nowMs: real, catchUp: bool, result: ClockResult)
      modifies `trace, scheduler`now,
               player`rates, player`times
      ensures old(scheduler.now) <= scheduler.now == nowMs && trace == old(trace).(decidedAtMs := nowMs)
      ensures scheduler.steady ==> scheduler.now == old(scheduler.now)
      ensures result.driftSec == host.Drift(player, sync, trace.decidedAtMs)
      ensures !result.seekAttempted ==> player.times == old(player.times)
      ensures result.seekAttempted ==> |player.times.writes| > |old(player.times.writes)|
      ensures SyncBounds(player) == old(SyncBounds(player))
      ensures old(player.rates.writes) < player.rates.writes
      ensures var t := trace.decidedAtMs;
              var w := old(PlannedWrite(player, sync, explicit, gated, chosen, t));
              && player.times.writes == old(player.times.writes) + w
              && (result.seekAttempted <==> w != []) && (w != [] ==> w == [result.targetSec])
      ensures Determined(sync, explicit, gated, chosen) ==>
                PredictedWrites(old(player.Playhead()), sync, explicit, trace.decidedAtMs, old(SyncBounds(player)), host.SoftThreshold(),
                              old(player.times.writes), old(player.rates.writes), player.times.writes, player.rates.writes)
      ensures Unforced(sync, explicit, gated, chosen) ==>
                var t := trace.decidedAtMs;
                var d := old(host.Drift(player, sync, t));
                catchUp == (d.Some? && InCatchUpBand(d.value, host.SoftThreshold()))
                && (catchUp ==> !result.seekAttempted)
      ensures explicit.Some? ==> !catchUp
    {
      nowMs := scheduler.NowMs();
      trace := trace.(decidedAtMs := nowMs);
      var driftBefore := host.Drift(player, sync, nowMs);
      var plan := PlanCorrection(host.IsNative(), sync.paused, gated, explicit, chosen, driftBefore,
                                 host.SoftThreshold(), native.probe.Some?);
      catchUp := plan.catchUp;
      var rate := if plan.catchUp then CatchUpRate(sync.playbackRate, driftBefore.value, host.SoftThreshold())
                  else if host.IsNative() || sync.paused then None else host.catchUpRate;
      result := ApplyClock(player, sync, plan.threshold, nowMs, host.VodHint(), host.durationHint.PosInf?,
                           if rate.Some? then rate.value else sync.playbackRate, 0.0, 0.0);
    }

    /** An apply nobody forces: no explicit threshold, HTML5, playing, past the initial snap. */
    predicate Unforced(sync: SyncState, explicit: Option<real>, gated: bool, chosen: Option<Num>)
      reads host`tuning
    {
      explicit.None? && chosen.None? && !gated && !host.IsNative() && !sync.paused
    }

    /** An apply whose playhead write is fully determined by its inputs: unforced, or with an
        explicit threshold and no muted escalation. */
    predicate Determined(sync: SyncState, explicit: Option<real>, gated: bool, chosen: Option<Num>)
      reads host`tuning
    {
      Unforced(sync, explicit, gated, chosen)
      || (explicit.Some? && !gated && chosen == Some(Fin(explicit.value)) && (host.IsNative() || !sync.paused))
    }

    /** The playhead write made last is the one being confirmed. */
    predicate Awaited(sync: SyncState, writes: seq<real>)
      reads native`probe
    {
      native.probe.Some? && native.probe.value.anchorMs == sync.timelineAnchorMs
      && writes != [] && native.probe.value.target == Fin(writes[|writes| - 1])
    }

    /** A paused element that was written once and is still off had no escalation left. */
    ghost predicate Escalated(player: Player, sync: SyncState, before: seq<real>, budget: AnchorBudget)
      reads `trace, host`tuning, host`rttMs, host`durationHint, player`times
    {
      var n := |before|;
      && |player.times.writes| == n + 1
      && IgnoredSeek(player, sync, player.times.writes[n], trace.measuredAtMs) ==>
        ResetBudget(budget, sync.timelineAnchorMs).count >= host.MaxForceSeeks()
    }

    function Find(player: Player): Found
      reads `timers, `budgets, host`lastAppliedAnchorMs, player`times, player`transport
    {
      Found(player.times.writes, player.transport.calls, player.IsPlaying(), timers.retry, budgets.escalate, host.lastAppliedAnchorMs)
    }

    /** The first half of an apply is done: a write is reported and awaits confirmation, and only
        the escalation has touched the transport. */
    ghost predicate Written(player: Player, sync: SyncState, found: Found, gated: bool, confirmPending: bool, echo: bool, seekAttempted: bool)
      reads `timers, `trace, host`tuning, host`rttMs, host`durationHint, host`lastAppliedAnchorMs, native`probe,
            player`times, player`transport
    {
      && (seekAttempted <==> player.times.writes != found.writes) && (echo <==> seekAttempted && Echoes(player))
      && (seekAttempted && ConfirmsSeeks(sync) && !gated ==> confirmPending && Awaited(sync, player.times.writes))
      && Escalated(player, sync, found.writes, found.escalate)
      && host.lastAppliedAnchorMs == (if gated then found.anchorMs else Some(sync.timelineAnchorMs))
      && timers.retry == found.retry
      && (|| (player.transport.calls == found.calls && player.IsPlaying() == found.playing)
          || (sync.paused && player.transport.calls == found.calls + [false, true, true]))
    }

    /** The write of an apply is confirmed, measured and, for a paused element, escalated. */
    method ConfirmAndMeasure(player: Player, sync: SyncState, gated: bool, result: ClockResult, before: Num, nowMs: real, ghost found: Found,
                             ghost startMs: real)
      returns (confirmPending: bool, echo: bool, drift: Option<real>)
      requires Core() && StallPaced(stall, stallSeeks, startMs) && startMs <= nowMs <= scheduler.now
      requires player.times.writes == found.writes + if result.seekAttempted then [result.targetSec] else []
      requires player.transport.calls == found.calls && player.IsPlaying() == found.playing
      requires timers.retry == found.retry && budgets.escalate == found.escalate
      requires host.lastAppliedAnchorMs == if gated then found.anchorMs else Some(sync.timelineAnchorMs)
      modifies `trace, `budgets, `stall, native, scheduler`now, player`times, player`transport
      ensures Core() && StallOk()
      ensures old(scheduler.now) <= scheduler.now && (scheduler.steady ==> scheduler.now == old(scheduler.now))
      ensures trace == old(trace).(measuredAtMs := trace.measuredAtMs) && old(scheduler.now) <= trace.measuredAtMs <= scheduler.now
      ensures budgets.force == old(budgets.force) && native.pauseSeekKey == old(native.pauseSeekKey)
      ensures if result.seekAttempted then SeekNoted(nowMs) else stall == old(stall) && player.times == old(player.times)
      ensures drift == host.Drift(player, sync, trace.measuredAtMs) && SyncBounds(player) == old(SyncBounds(player))
      ensures player.times.writes == old(player.times.writes)
              || (MayEscalate(sync) && result.seekAttempted && player.times.writes == old(player.times.writes) + [result.targetSec])
      ensures !confirmPending && ConfirmsSeeks(sync) && !gated ==> native.probe == None
      ensures confirmPending ==> native.probe.Some? && ConfirmsSeeks(sync)
      ensures Written(player, sync, found, gated, confirmPending, echo, result.seekAttempted)
    {
      hide DriftSec, NoteSeek, EvaluateSeek, Bounded, IgnoredSeek, TryConsume, ResetBudget, StallPaced, TimersOk, HoldOk;
      ghost var stalled := stall;
      confirmPending := ConfirmSeek(player, sync, gated, result, before, nowMs);
      ghost var firstMs;
      drift, firstMs := MeasureAndEscalate(player, sync, result);
      echo := EchoUnconfirmed(player, result);
      StallPacedLater(stalled, stall, stallSeeks, startMs, scheduler.now);
    }

    /** Write the clock, then confirm, measure and escalate; stops early when the player or
        the host throws. */
    method WriteAndMeasure(player: Player, sync: SyncState, explicit: Option<real>, gated: bool, chosen: Option<Num>)
      returns (completed: bool, catchUp: bool, confirmPending: bool, echo: bool, seekAttempted: bool, drift: Option<real>)
      requires Core() && StallOk()
      modifies `trace, `budgets, `stall,
               native, host`lastAppliedAnchorMs, scheduler`now,
               player`rates, player`times,
               player`transport
      ensures Core() && StallOk()
      ensures old(scheduler.now) <= scheduler.now && (scheduler.steady ==> scheduler.now == old(scheduler.now))
      ensures trace.threw == old(trace.threw) && budgets.force == old(budgets.force) && native.pauseSeekKey == old(native.pauseSeekKey)
      ensures SeeksNoted(player)
      ensures SyncBounds(player) == old(SyncBounds(player))
      ensures completed ==> old(scheduler.now) <= trace.decidedAtMs <= trace.measuredAtMs <= scheduler.now
      ensures completed ==> drift == host.Drift(player, sync, trace.measuredAtMs)
      ensures completed ==>
                var t := trace.decidedAtMs;
                WroteClock(old(player.times.writes), player.times.writes, old(PlannedWrite(player, sync, explicit, gated, chosen, t)),
                           MayEscalate(sync))
      ensures completed && !confirmPending && ConfirmsSeeks(sync) && !gated ==> native.probe == None
      ensures completed && confirmPending ==> native.probe.Some? && ConfirmsSeeks(sync)
      ensures completed ==> Written(player, sync, old(Find(player)), gated, confirmPending, echo, seekAttempted)
      ensures completed && Determined(sync, explicit, gated, chosen) ==>
                PredictedWrites(old(player.Playhead()), sync, explicit, trace.decidedAtMs, old(SyncBounds(player)), host.SoftThreshold(),
                              old(player.times.writes), old(player.rates.writes), player.times.writes, player.rates.writes)
      ensures completed && Unforced(sync, explicit, gated, chosen) ==>
                var t := trace.decidedAtMs;
                var d := old(host.Drift(player, sync, t));
                catchUp == (d.Some? && InCatchUpBand(d.value, host.SoftThreshold()))
                && (catchUp && scheduler.steady ==> drift == d)
      ensures old(player.transport.calls) <= player.transport.calls
      ensures player.neverThrows ==> completed
      ensures explicit.Some? ==> !catchUp
    {
      hide TimersAgree, DriftSec, CatchUpRate, PredictedWrites, PlannedOf, NoteSeek, EvaluateSeek, SeekWrite, TargetSec, Bounded, NeedsSeek,
           Escalated, Awaited, Echoes;
      hide Core, StallPaced;
      ghost var startMs := scheduler.now;
      completed, confirmPending, echo, drift := false, false, false, None;
      catchUp, seekAttempted := false, false;
      var throws := *;
      if throws && !player.neverThrows {
        return;
      }
      var before := player.Playhead();
      var nowMs, result;
      nowMs, catchUp, result := WriteClock(player, sync, explicit, gated, chosen);
      seekAttempted := result.seekAttempted;
      if !gated {
        host.lastAppliedAnchorMs := Some(sync.timelineAnchorMs);
      }
      confirmPending, echo, drift := ConfirmAndMeasure(player, sync, gated, result, before, nowMs, old(Find(player)), startMs);
      throws := *;
      completed := !throws || player.neverThrows;
    }

    /** The element was told to play or pause like the room when it did not, and the nudges are
        armed: for a paused room always, for a playing one while the element does not play. */
    predicate Transported(player: Player, sync: SyncState, before: seq<bool>, wasPlaying: bool)
      reads `timers, host`tuning, host`authorityPaused, player`transport
    {
      && (player.transport.calls == before || Asked(before, player.transport.calls, sync.paused))
      && (wasPlaying == sync.paused ==> Asked(before, player.transport.calls, sync.paused))
      && (sync.paused ==> |timers.pause| == |host.PauseRetryDelays()|)
      && (!sync.paused && wasPlaying ==> timers.pause == [])
      && (!sync.paused && !wasPlaying && !host.authorityPaused ==> |timers.pause| == |host.PauseRetryDelays()|)
    }

    /** What is left to verify has a burst of timers: the one in flight, or a new one. */
    predicate Rearmed(before: seq<nat>, due: bool)
      reads `timers, host`tuning
    {
      if due && before == [] then |timers.retry| == |host.RetryDelays()| else timers.retry == before
    }

    /** The escalation of a paused element comes before, and asks for a pause as well. */
    lemma TransportedAfter(player: Player, sync: SyncState, before: seq<bool>, between: seq<bool>, wasPlaying: bool, playing: bool)
      requires Transported(player, sync, between, playing)
      requires (between == before && playing == wasPlaying) || (sync.paused && between == before + [false, true, true])
      ensures Transported(player, sync, before, wasPlaying)
    {
      AskedMore(before, between, player.transport.calls, sync.paused);
    }

    /** No boost for an iframe, a held seek, a paused room, or a drift that is closed, unknown or
        too far. */
    predicate BoostFits(sync: SyncState, drift: Option<real>)
      reads `holdLocalSeek, host`tuning, host`catchUpRate
    {
      host.IsNative() || holdLocalSeek || sync.paused || drift.None?
      || drift.value <= CATCH_UP_CLEAR_DRIFT_SEC || drift.value > CATCH_UP_DRIFT_MAX_SEC ==>
        host.catchUpRate == None
    }

    /** Judgement and follow-up. */
    method JudgeApply(player: Player, sync: SyncState, gated: bool, again: bool, catchUp: bool, confirmPending: bool,
                      echo: bool, seekAttempted: bool, drift: Option<real>)
      requires Core() && phase == Applying
      requires drift == host.Drift(player, sync, trace.measuredAtMs)
      requires !confirmPending && ConfirmsSeeks(sync) && !gated ==> native.probe == None
      requires confirmPending ==> native.probe.Some? && ConfirmsSeeks(sync)
      requires gated <==> host.IsNative() && !DurationIsReady(player)
      requires host.IsNative() && !gated ==> !durationGated
      modifies `initialSnapPending, `phase, `timers, `budgets, `stall,
               native, host`pending, host`catchUpRate, scheduler`now, scheduler`queue,
               player`rates, player`transport
      ensures Core() && old(scheduler.now) <= scheduler.now
      ensures stall.lastSeekMs == old(stall.lastSeekMs) && (stall.sample == None || stall.sample == old(stall.sample))
      ensures phase == if host.pending == None then Idle else Verifying
      ensures host.pending == None || host.pending == Some(sync)
      ensures host.pending == None ==> Converged(player, sync)
      ensures initialSnapPending == (old(initialSnapPending) && !(host.pending == None && host.mediaReady))
      ensures old(player.rates.writes) <= player.rates.writes
      ensures native.probe == old(native.probe) && native.pauseSeekKey == old(native.pauseSeekKey)
      ensures !(host.IsNative() && sync.paused) ==>
                (host.pending == None <==> NothingOutstanding(player, sync, gated, confirmPending, echo, drift))
      ensures !gated && !echo && InPlace(player, sync) ==> host.pending == None
      ensures timers.pause == old(timers.pause)
      ensures player.transport == old(player.transport)
              || (sync.paused && player.transport.calls == old(player.transport.calls) + [true])
      ensures Rearmed(old(timers.retry), host.pending != None && !holdLocalSeek && Unverified(again, echo, seekAttempted, drift))
      ensures BoostFits(sync, drift)
      ensures catchUp && !host.IsNative() && !sync.paused && !holdLocalSeek ==> BoostedBy(sync, drift)
      ensures confirmPending || gated || echo ==> host.pending == Some(sync)
      ensures budgets.force == old(budgets.force) || budgets.force == ResetBudget(old(budgets.force), host.playback.timelineAnchorMs)
      ensures !catchUp && old(host.catchUpRate) == None ==> host.catchUpRate == None
    {
      hide Core, DriftSec, CatchUpRate, NothingOutstanding, Burst, LocalRate, BoostFits, BoostedBy, Converged, InPlace, Unverified;
      JudgeConvergence(player, sync, gated, confirmPending, echo, drift);
      FollowUp(player, sync, again, catchUp, echo, seekAttempted, drift);
    }

    /** What a completed apply has seen to besides the playhead and the rate: transport and timers,
        the boost, the confirmation of its write, and the escalation for a paused element. */
    ghost predicate Attended(player: Player, sync: SyncState, found: Found, gated: bool, again: bool)
      reads `timers, `holdLocalSeek, `trace, host`tuning, host`authorityPaused, host`rttMs, host`durationHint,
            host`pending, host`catchUpRate, host`lastAppliedAnchorMs, native`probe, player`times, player`transport
    {
      var written := player.times.writes != found.writes;
      var drift := host.Drift(player, sync, trace.measuredAtMs);
      && Transported(player, sync, found.calls, found.playing)
      && Rearmed(found.retry, host.pending != None && !holdLocalSeek && Unverified(again, false, written, drift))
      && BoostFits(sync, drift)
      && (written && ConfirmsSeeks(sync) && !gated ==> host.pending == Some(sync) && Awaited(sync, player.times.writes))
      && (written && Echoes(player) ==> host.pending == Some(sync))
      && Escalated(player, sync, found.writes, found.escalate)
      && host.lastAppliedAnchorMs == if gated then found.anchorMs else Some(sync.timelineAnchorMs)
    }

    /** Transport, judgement and follow-up: everything after the drift has been measured. */
    method SettleApply(player: Player, sync: SyncState, gated: bool, again: bool, catchUp: bool, confirmPending: bool,
                       echo: bool, seekAttempted: bool, drift: Option<real>, ghost found: Found)
      requires Core() && StallOk() && phase == Applying
      requires drift == host.Drift(player, sync, trace.measuredAtMs)
      requires !confirmPending && ConfirmsSeeks(sync) && !gated ==> native.probe == None
      requires confirmPending ==> native.probe.Some? && ConfirmsSeeks(sync)
      requires gated <==> host.IsNative() && !DurationIsReady(player)
      requires host.IsNative() && !gated ==> !durationGated
      requires Written(player, sync, found, gated, confirmPending, echo, seekAttempted)
      modifies `initialSnapPending, `phase, `timers, `budgets, `stall,
               native, host`pending, host`catchUpRate, scheduler`now, scheduler`queue,
               player`rates, player`transport
      ensures Core() && StallOk() && old(scheduler.now) <= scheduler.now
      ensures stall.lastSeekMs == old(stall.lastSeekMs) && (stall.sample == None || stall.sample == old(stall.sample))
      ensures phase == if host.pending == None then Idle else Verifying
      ensures host.pending == None || host.pending == Some(sync)
      ensures host.pending == None ==> Converged(player, sync)
      ensures initialSnapPending == (old(initialSnapPending) && !(host.pending == None && host.mediaReady))
      ensures old(player.rates.writes) <= player.rates.writes
      ensures native.probe == old(native.probe) && native.pauseSeekKey == old(native.pauseSeekKey)
      ensures !(host.IsNative() && sync.paused) ==>
                (host.pending == None <==> NothingOutstanding(player, sync, gated, confirmPending, echo, drift))
      ensures player.times.writes == found.writes && !gated && InPlace(player, sync) ==> host.pending == None
      ensures Attended(player, sync, found, gated, again)
      ensures catchUp && !host.IsNative() && !sync.paused && !holdLocalSeek ==> BoostedBy(sync, drift)
      ensures confirmPending || gated ==> host.pending == Some(sync)
      ensures budgets.force == old(budgets.force) || budgets.force == ResetBudget(old(budgets.force), host.playback.timelineAnchorMs)
      ensures found.calls <= player.transport.calls
      ensures !catchUp && old(host.catchUpRate) == None ==> host.catchUpRate == None
    {
      hide TimersAgree, DriftSec, CatchUpRate, NothingOutstanding, Burst, BoostFits, BoostedBy, Converged, InPlace, Escalated, Rearmed;
      hide StallPaced, Core, ResetPauseSamples, ResetBudget;
      ghost var calls, playing := player.transport.calls, player.IsPlaying();
      ghost var stalled, startMs := stall, scheduler.now;
      ReconcileTransport(player, sync);
      JudgeApply(player, sync, gated, again, catchUp, confirmPending, echo, seekAttempted, drift);
      TransportedAfter(player, sync, found.calls, calls, found.playing, playing);
      StallPacedLater(stalled, stall, stallSeeks, startMs, scheduler.now);
    }

    /** The try block of an apply but for a throw at its end; an early stop leaves the rest of it
        undone. */
    method TryApply(player: Player, sync: SyncState, explicit: Option<real>, gated: bool, again: bool, chosen: Option<Num>)
      returns (completed: bool)
      requires Core() && StallOk() && phase == Applying
      requires gated <==> host.IsNative() && !DurationIsReady(player)
      requires host.IsNative() && !gated ==> !durationGated
      modifies `trace, host`lastAppliedAnchorMs,
               `initialSnapPending, `phase, `timers, `budgets, `stall,
               native, host`pending, host`catchUpRate, scheduler`now, scheduler`queue,
               player`times, player`rates, player`transport
      ensures Core() && StallOk() && old(scheduler.now) <= scheduler.now && trace.threw == old(trace.threw) && SeeksNoted(player)
      ensures native.pauseSeekKey == old(native.pauseSeekKey)
      ensures completed ==> phase == if host.pending == None then Idle else Verifying
      ensures completed ==> host.pending == None || host.pending == Some(sync)
      ensures completed && host.pending == None ==> Converged(player, sync) && old(scheduler.now) <= trace.measuredAtMs <= scheduler.now
      ensures completed && player.times.writes == old(player.times.writes) && !gated && InPlace(player, sync) ==> host.pending == None
      ensures completed ==> initialSnapPending == (old(initialSnapPending) && !(host.pending == None && host.mediaReady))
      ensures completed ==> old(scheduler.now) <= trace.decidedAtMs <= scheduler.now
      ensures completed ==>
                var t := trace.decidedAtMs;
                WroteClock(old(player.times.writes), player.times.writes, old(PlannedWrite(player, sync, explicit, gated, chosen, t)),
                           MayEscalate(sync))
      ensures completed && Determined(sync, explicit, gated, chosen) ==>
                PredictedWrites(old(player.Playhead()), sync, explicit, trace.decidedAtMs, old(SyncBounds(player)), host.SoftThreshold(),
                              old(player.times.writes), old(player.rates.writes), player.times.writes, player.rates.writes)
      ensures completed && Unforced(sync, explicit, gated, chosen) && scheduler.steady && !holdLocalSeek ==>
                var t := trace.decidedAtMs;
                BoostedBy(sync, old(host.Drift(player, sync, t)))
      ensures completed ==> Attended(player, sync, old(Find(player)), gated, again)
      ensures budgets.force == old(budgets.force) || budgets.force == ResetBudget(old(budgets.force), host.playback.timelineAnchorMs)
      ensures old(player.transport.calls) <= player.transport.calls
      ensures player.neverThrows ==> completed
      ensures explicit.Some? && old(host.catchUpRate) == None ==> host.catchUpRate == None
    {
      hide StallPaced, DriftSec, ExpectedSec, SeekCeilingSec, PredictedWrites, Converged, InPlace, NothingOutstanding;
      hide TimersOk, BudgetsOk, HoldOk, PlannedOf, WroteClock, Written, Attended;
      hide Core, StallOk;
      ghost var found := Find(player);
      var catchUp, confirmPending, echo, seekAttempted, drift;
      completed, catchUp, confirmPending, echo, seekAttempted, drift := WriteAndMeasure(player, sync, explicit, gated, chosen);
      if completed {
        ghost var rates := player.rates.writes;
        SettleApply(player, sync, gated, again, catchUp, confirmPending, echo, seekAttempted, drift, found);
        if Determined(sync, explicit, gated, chosen) {
          LaterRatesPredicted(old(player.Playhead()), sync, explicit, trace.decidedAtMs, old(SyncBounds(player)), host.SoftThreshold(),
                              old(player.times.writes), old(player.rates.writes), player.times.writes, rates, player.rates.writes);
        }
      }
    }

    /** A drift in the catch-up band has set the boosted rate. */
    predicate BoostedBy(sync: SyncState, drift: Option<real>)
      reads host`catchUpRate, host`rttMs
    {
      drift.Some? && CatchUpRate(sync.playbackRate, drift.value, host.SoftThreshold()).Some? ==>
        host.catchUpRate == CatchUpRate(sync.playbackRate, drift.value, host.SoftThreshold())
    }

    /** Gate, snap and re-apply, and the threshold they lead to. */
    method StartApply(player: Player, sync: SyncState, explicit: Option<real>)
      returns (gated: bool, again: bool, chosen: Option<Num>)
      requires Valid()
      modifies `phase, `durationGated, `trace, native`pauseSeekKey
      ensures Core() && StallOk() && phase == Applying && !trace.threw
      ensures gated <==> host.IsNative() && !DurationIsReady(player)
      ensures host.IsNative() && !gated ==> !durationGated
      ensures again == old(Again(player))
      ensures chosen == if gated then Some(PosInf) else if explicit.Some? then Some(Fin(explicit.value))
                        else if old(ForcesItself(sync)) then Some(Fin(0.0)) else None
      ensures native.pauseSeekKey == if old(ClaimsPause(player, sync, explicit)) then Some((sync.timelineAnchorMs, sync.serverNowMs))
                                     else old(native.pauseSeekKey)
    {
      hide TimersOk, BudgetsOk, HoldOk, StallPaced, ForcesItself, ClaimsPause;
      trace := trace.(threw := false);
      var reapply, snap;
      gated, reapply, snap, chosen := ChooseThreshold(player, sync, explicit);
      again := snap || reapply;
      phase := Applying;
    }

    /** The last apply has thrown, to a player that may. */
    ghost predicate Threw(player: Player)
      reads `trace
    {
      trace.threw && !player.neverThrows
    }

    method ApplyRoomClock(player: Player, sync: SyncState, explicit: Option<real>)
      requires Valid()
      modifies `phase, `timers, `initialSnapPending, `budgets, `stall, `durationGated, `trace,
               host`pending, host`applyFailures, host`lastAppliedAnchorMs, host`catchUpRate,
               native, scheduler`now, scheduler`queue, player`times, player`rates, player`transport
      ensures Valid()
      ensures disposed ==> host.pending == old(host.pending) && phase == old(phase)
                           && player.times == old(player.times) && player.rates == old(player.rates)
                           && player.transport == old(player.transport) && scheduler.queue == old(scheduler.queue)
      ensures old(scheduler.now) <= scheduler.now
      ensures SeeksNoted(player)
      // The phase and the pending snapshot say the same thing.
      ensures !disposed ==> (phase == Verifying <==> host.pending != None)
      ensures !disposed ==> host.pending == None || host.pending == Some(sync)
      // Nothing pending means converged.
      ensures !disposed && host.pending == None ==> !trace.threw && Converged(player, sync)
      ensures !disposed && host.pending == None ==> old(scheduler.now) <= trace.measuredAtMs <= scheduler.now
      // And an apply that finds everything in place leaves nothing pending.
      ensures var ungated := old(!host.IsNative() || DurationIsReady(player));
              !disposed && !Threw(player) && ungated && player.times.writes == old(player.times.writes) && InPlace(player, sync) ==>
                host.pending == None
      ensures !disposed && !Threw(player) ==> initialSnapPending == (old(initialSnapPending) && !(host.pending == None && host.mediaReady))
      ensures !disposed ==>
                native.pauseSeekKey == if old(ClaimsPause(player, sync, explicit)) then Some((sync.timelineAnchorMs, sync.serverNowMs))
                                       else old(native.pauseSeekKey)
      // Which playhead write the apply makes, and which rate it sets first.
      ensures !disposed && !Threw(player) ==> old(scheduler.now) <= trace.decidedAtMs <= scheduler.now
      ensures !disposed && !Threw(player) ==>
                var t := trace.decidedAtMs;
                WroteClock(old(player.times.writes), player.times.writes, old(WriteAt(player, sync, explicit, t)), MayEscalate(sync))
      ensures !disposed && !Threw(player) && (Routine(sync, explicit, old(initialSnapPending)) || old(Explicit(player, sync, explicit))) ==>
                PredictedWrites(old(player.Playhead()), sync, explicit, trace.decidedAtMs, old(SyncBounds(player)), host.SoftThreshold(),
                              old(player.times.writes), old(player.rates.writes), player.times.writes, player.rates.writes)
      ensures !disposed && !Threw(player) && Routine(sync, explicit, old(initialSnapPending)) && scheduler.steady && !holdLocalSeek ==>
                var t := trace.decidedAtMs;
                BoostedBy(sync, old(host.Drift(player, sync, t)))
      ensures !disposed && !Threw(player) ==> Attended(player, sync, old(Find(player)), old(Gated(player)), old(Again(player)))
      ensures budgets.force == old(budgets.force) || budgets.force == ResetBudget(old(budgets.force), host.playback.timelineAnchorMs)
      ensures old(player.transport.calls) <= player.transport.calls
      ensures !disposed ==> host.applyFailures == old(host.applyFailures) + if trace.threw then 1 else 0
      ensures !disposed && player.neverThrows ==> !trace.threw
      ensures explicit.Some? && old(host.catchUpRate) == None ==> host.catchUpRate == None
    {
      hide DriftSec, CatchUpRate, PredictedWrites, StallPaced, BoostedBy, Converged, ExpectedSec, SeekCeilingSec;
      hide Core, StallOk, PlannedOf, StartedOf, WroteClock, InPlace, StartThreshold, Attended;
      if disposed {
        return;
      }
      var gated, again, chosen := StartApply(player, sync, explicit);
      ghost var h, b, forced, probed := player.Playhead(), SyncBounds(player), old(ForcesItself(sync)), native.probe.Some?;
      hide ForcesItself, ClaimsPause;
      var completed := TryApply(player, sync, explicit, gated, again, chosen);
      PlanStartsThere(h, sync, trace.decidedAtMs, b, host.IsNative(), gated, explicit, forced, chosen, host.SoftThreshold(), probed);
      var throws := *;
      if !completed || (throws && !player.neverThrows) {
        FailApply(sync);
      }
    }

    predicate Gated(player: Player)
      reads host`tuning, host`durationHint, player`times
    {
      host.IsNative() && !DurationIsReady(player)
    }

    /** A late-join snap, or the re-apply once an iframe has a duration. */
    predicate Again(player: Player)
      reads `initialSnapPending, `durationGated, host`tuning, host`mediaReady, host`durationHint, player`times
    {
      !Gated(player) && ((initialSnapPending && host.mediaReady) || (host.IsNative() && durationGated))
    }

    /** The late-join snap, the re-apply once an iframe has a duration, and the first seek of an
        iframe for a pause. */
    predicate ForcesItself(sync: SyncState)
      reads `initialSnapPending, `durationGated, host`tuning, host`mediaReady, native`pauseSeekKey
    {
      || (initialSnapPending && host.mediaReady)
      || (host.IsNative() && durationGated)
      || (host.IsNative() && sync.paused && native.pauseSeekKey != Some((sync.timelineAnchorMs, sync.serverNowMs)))
    }

    /** An apply of a paused iframe that nothing else forces takes the one seek of this pause. */
    predicate ClaimsPause(player: Player, sync: SyncState, explicit: Option<real>)
      reads `initialSnapPending, `durationGated, host`tuning, host`mediaReady, host`durationHint, player`times
    {
      && host.IsNative() && sync.paused && explicit.None? && DurationIsReady(player)
      && !durationGated && !(initialSnapPending && host.mediaReady)
    }

    /** Only a paused element is seeked a second time. */
    predicate MayEscalate(sync: SyncState)
      reads host`tuning
    {
      !host.IsNative() && sync.paused
    }

    /** What an apply that decides at `t` writes to the playhead. */
    function WriteAt(player: Player, sync: SyncState, explicit: Option<real>, t: real): seq<real>
      reads `initialSnapPending, `durationGated, host`tuning, host`mediaReady, host`durationHint, host`rttMs,
            native`probe, native`pauseSeekKey, player`times
    {
      StartedOf(player.Playhead(), sync, t, SyncBounds(player), host.IsNative(), host.IsNative() && !DurationIsReady(player),
                explicit, ForcesItself(sync), host.SoftThreshold(), native.probe.Some?)
    }

    /** A forced apply that is not gated and cannot escalate. */
    predicate Explicit(player: Player, sync: SyncState, explicit: Option<real>)
      reads host`tuning, host`durationHint, player`times
    {
      explicit.Some? && (if host.IsNative() then DurationIsReady(player) else !sync.paused)
    }

    /** An apply nobody forces: HTML5, playing, no explicit threshold, past the initial snap. */
    predicate Routine(sync: SyncState, explicit: Option<real>, snapPending: bool)
      reads host`tuning, host`mediaReady
    {
      explicit.None? && !host.IsNative() && !sync.paused && !(snapPending && host.mediaReady)
    }

    /** An apply leaves nothing to wait for: no gate, no confirmation, no echo, the drift measured
        and small, the element in the room's play state. */
    predicate NothingOutstanding(player: Player, sync: SyncState, gated: bool, confirmPending: bool, echo: bool, drift: Option<real>)
      reads host`rttMs, player`transport
    {
      !gated && !confirmPending && !echo && drift.Some? && drift.value <= host.SoftThreshold() && player.IsPlaying() == !sync.paused
    }

    /** Is anything still outstanding? The answer is the new pending snapshot and phase. */
    method JudgeConvergence(player: Player, sync: SyncState, gated: bool, confirmPending: bool, echo: bool, drift: Option<real>)
      requires Core()
      requires drift == host.Drift(player, sync, trace.measuredAtMs)
      requires !confirmPending && ConfirmsSeeks(sync) && !gated ==> native.probe == None
      requires confirmPending ==> native.probe.Some? && ConfirmsSeeks(sync)
      requires gated <==> host.IsNative() && !DurationIsReady(player)
      requires host.IsNative() && !gated ==> !durationGated
      modifies `initialSnapPending, `phase, native, host`pending, scheduler`now, player`transport
      ensures Core()
      ensures old(scheduler.now) <= scheduler.now
      ensures phase == if host.pending == None then Idle else Verifying
      ensures host.pending == None || host.pending == Some(sync)
      ensures host.pending == None ==> Converged(player, sync) && !gated && !confirmPending && !echo
      ensures native.probe == old(native.probe) && native.pauseSeekKey == old(native.pauseSeekKey)
      ensures !(host.IsNative() && sync.paused) ==>
                (host.pending == None <==> NothingOutstanding(player, sync, gated, confirmPending, echo, drift))
      ensures !gated && !echo && InPlace(player, sync) ==> host.pending == None
      ensures player.transport == old(player.transport)
              || (sync.paused && player.transport.calls == old(player.transport.calls) + [true] && host.pending == Some(sync))
      ensures initialSnapPending == (old(initialSnapPending) && !(host.pending == None && host.mediaReady))
      ensures var nowMs := scheduler.now;
              var sampled := host.IsNative() && sync.paused && !gated;
              var v := old(SamplePause(native.State(), PauseReading(player.Playhead(), player.transport.wrapperPaused, nowMs)));
              && native.State() == (if sampled then v.0 else old(native.State()))
              && player.transport.calls == old(player.transport.calls) + (if sampled && !v.1.quiescent then [true] else [])
              && (host.pending == None <==>
                    (sampled ==> v.1.quiescent) && old(NothingOutstanding(player, sync, gated, confirmPending, echo, drift)))
    {
      hide TimersOk, BudgetsOk, HoldOk, DriftSec;
      var nativePauseUnsettled := false;
      if host.IsNative() && !gated && sync.paused {
        var quiescent := SettleNativePause(player);
        nativePauseUnsettled := !quiescent;
      }
      var pauseUnconverged := (sync.paused && player.IsPlaying()) || nativePauseUnsettled;
      var playUnconverged := !sync.paused && !player.IsPlaying();
      var stillDrifting := gated || confirmPending || echo || drift.None? || drift.value > host.SoftThreshold()
                           || pauseUnconverged || playUnconverged;
      if !stillDrifting && !gated && host.mediaReady {
        initialSnapPending := false;
      }
      host.pending := if stillDrifting then Some(sync) else None;
      phase := if stillDrifting then Verifying else Idle;
    }

    /** An apply has something to verify: a snap or re-apply, an echo, a written seek, or drift left. */
    predicate Unverified(again: bool, echo: bool, seekAttempted: bool, drift: Option<real>)
      reads host`rttMs
    {
      again || echo || seekAttempted || (drift.Some? && drift.value > host.SoftThreshold())
    }

    /** What follows from the judgement: the local rate, and a fresh verify burst when the
        apply has something to verify and no burst is in flight. */
    method FollowUp(player: Player, sync: SyncState, snapOrReapply: bool, catchUp: bool, echo: bool,
                    seekAttempted: bool, drift: Option<real>)
      requires Core() && phase == if host.pending == None then Idle else Verifying
      modifies `stall, `timers, `budgets, `phase, host`catchUpRate,
               scheduler`queue, player`rates
      ensures Core() && phase == old(phase)
      ensures stall.lastSeekMs == old(stall.lastSeekMs) && (stall.sample == None || stall.sample == old(stall.sample))
      ensures old(player.rates.writes) <= player.rates.writes
      ensures host.catchUpRate == LocalRate(sync, host.IsNative() || holdLocalSeek, catchUp, drift, host.SoftThreshold(), old(host.catchUpRate))
      ensures BoostFits(sync, drift)
      ensures catchUp && !host.IsNative() && !sync.paused && !holdLocalSeek ==> BoostedBy(sync, drift)
      ensures timers.pause == old(timers.pause)
      ensures Rearmed(old(timers.retry), host.pending != None && !holdLocalSeek && Unverified(snapOrReapply, echo, seekAttempted, drift))
      ensures if host.pending != None && !holdLocalSeek && old(timers.retry) == [] && Unverified(snapOrReapply, echo, seekAttempted, drift)
              then timers.retry == Ids(old(scheduler.queue.nextId), |host.RetryDelays()|)
                   && scheduler.queue.armed == Burst(Without(old(scheduler.queue.armed), []), old(scheduler.queue.nextId),
                                               VerifyTick(host.playback.timelineAnchorMs), scheduler.now, host.RetryDelays())
              else timers.retry == old(timers.retry) && scheduler.queue == old(scheduler.queue)
      ensures budgets.force == old(budgets.force) || budgets.force == ResetBudget(old(budgets.force), host.playback.timelineAnchorMs)
      ensures !catchUp && old(host.catchUpRate) == None ==> host.catchUpRate == None
    {
      LocalRateFits(sync, host.IsNative() || holdLocalSeek, catchUp, drift, host.SoftThreshold(), host.catchUpRate);
      UpdateCatchUp(player, sync, catchUp, drift);
      if host.pending != None && !holdLocalSeek && timers.retry == []
         && (snapOrReapply || echo || seekAttempted || (drift.Some? && drift.value > host.SoftThreshold()))
      {
        ScheduleVerifyBurst(host.playback.timelineAnchorMs);
      }
    }

    // -------------------------------------------------------------- verify and watchdog ticks

    /** What a tick that ends with nothing pending has established; like `Converged`, with the
        play state tied to the snapshot when authority and snapshot agree. */
    ghost predicate ClearedSoundly(player: Player, sync: SyncState, unmeasured: bool)
      reads `durationGated, `trace, host`tuning, host`rttMs, host`durationHint, host`authorityPaused,
            native`probe, native`pauseSettled, player`times, player`transport
    {
      && (host.authorityPaused == sync.paused ==> player.IsPlaying() == !sync.paused)
      && Settled(player, sync)
      && host.InSync(player, sync, trace.measuredAtMs, unmeasured)
    }

    /** The threshold of a force seek now. */
    function ForceThresholdNow(anchorMs: real, requested: Option<real>): real
      reads `budgets, host`tuning, host`rttMs
    {
      var used := ResetBudget(budgets.force, anchorMs).count;
      ForceThreshold(requested, used >= host.MaxForceSeeks(), used == 0, host.IsNative(), host.SoftThreshold())
    }

    /** What a force seek that decides at `t` writes to the playhead. */
    function ForceWrite(player: Player, sync: SyncState, anchorMs: real, requested: Option<real>, t: real): seq<real>
      reads `budgets, host`tuning, host`rttMs, host`durationHint, player`times
    {
      if host.IsNative() && !DurationIsReady(player) then []
      else SeekWrite(player.Playhead(), sync, t, SyncBounds(player), Fin(ForceThresholdNow(anchorMs, requested)))
    }

    /** What the apply of a force seek finds: another anchor starts both budgets over. */
    function FindFor(player: Player, anchorMs: real): Found
      reads `timers, `budgets, host`lastAppliedAnchorMs, player`times, player`transport
    {
      Find(player).(escalate := if budgets.force.anchorMs != anchorMs then AnchorBudget(anchorMs, 0) else budgets.escalate)
    }

    /** Another anchor starts both budgets over, then one force seek is charged if any is left. */
    method ChargeForceSeek(anchorMs: real) returns (consumed: bool)
      requires Valid()
      modifies `budgets
      ensures Valid()
      ensures budgets.force == TryConsume(old(budgets.force), anchorMs, host.MaxForceSeeks()).0
      ensures budgets.escalate == if old(budgets.force.anchorMs) != anchorMs then AnchorBudget(anchorMs, 0) else old(budgets.escalate)
      ensures var used := old(ResetBudget(budgets.force, anchorMs).count);
              (consumed <==> used < host.MaxForceSeeks()) && (consumed ==> budgets.force.count == used + 1)
    {
      hide TimersOk, HoldOk, StallPaced;
      if budgets.force.anchorMs != anchorMs {
        budgets := Budgets(AnchorBudget(anchorMs, 0), AnchorBudget(anchorMs, 0));
      }
      var (budget, granted) := TryConsume(budgets.force, anchorMs, host.MaxForceSeeks());
      budgets := budgets.(force := budget);
      consumed := granted;
    }

    /** One budgeted force seek; the apply runs at the soft threshold once the budget is spent. */
    method TryForceSeek(player: Player, sync: SyncState, anchorMs: real, requested: Option<real>)
      requires Valid() && !disposed
      modifies `phase, `timers, `initialSnapPending, `budgets, `stall, `durationGated, `trace,
               host`pending, host`applyFailures, host`lastAppliedAnchorMs, host`catchUpRate,
               native, scheduler`now, scheduler`queue, player`times, player`rates, player`transport
      ensures Valid() && old(scheduler.now) <= scheduler.now && SeeksNoted(player)
      ensures phase == Verifying <==> host.pending != None
      ensures host.pending == None || host.pending == Some(sync)
      ensures host.pending == None ==> Converged(player, sync)
      ensures host.pending == None ==> old(scheduler.now) <= trace.measuredAtMs <= scheduler.now
      ensures var spent := old(ResetBudget(budgets.force, anchorMs).count >= host.MaxForceSeeks());
              var first := old(ResetBudget(budgets.force, anchorMs).count) == 0;
              var explicit := Some(ForceThreshold(requested, spent, first, host.IsNative(), host.SoftThreshold()));
              !Threw(player) && old(Explicit(player, sync, Some(0.0))) ==>
                PredictedWrites(old(player.Playhead()), sync, explicit, trace.decidedAtMs, old(SyncBounds(player)),
                                host.SoftThreshold(), old(player.times.writes), old(player.rates.writes),
                                player.times.writes, player.rates.writes)
      ensures !Threw(player) ==> old(scheduler.now) <= trace.decidedAtMs <= scheduler.now
      ensures !Threw(player) ==>
                var t := trace.decidedAtMs;
                WroteClock(old(player.times.writes), player.times.writes, old(ForceWrite(player, sync, anchorMs, requested, t)),
                           MayEscalate(sync))
      ensures var used := TryConsume(old(budgets.force), anchorMs, host.MaxForceSeeks()).0;
              budgets.force == used || budgets.force == ResetBudget(used, host.playback.timelineAnchorMs)
      ensures old(player.transport.calls) <= player.transport.calls
      ensures !Threw(player) ==> Attended(player, sync, old(FindFor(player, anchorMs)), old(Gated(player)), old(Again(player)))
      ensures old(host.catchUpRate) == None ==> host.catchUpRate == None
    {
      hide Attended;
      hide Valid, TryConsume, DriftSec, CatchUpRate, PredictedWrites, WroteClock, SeekWrite, Converged, InPlace;
      var consumed := ChargeForceSeek(anchorMs);
      if !consumed {
        ApplyRoomClock(player, sync, Some(if requested.Some? then requested.value else host.SoftThreshold()));
        return;
      }
      var threshold := if requested.Some? then requested.value
                       else if budgets.force.count == 1 || host.IsNative() then 0.0 else host.SoftThreshold();
      ApplyRoomClock(player, sync, Some(threshold));
    }

    /** A gated iframe that has its duration now is put on the room clock at threshold zero. */
    twostate predicate Reapplied(player: Player, sync: SyncState)
      reads `initialSnapPending, `durationGated, `trace, host`tuning, host`mediaReady, host`durationHint, host`rttMs,
            native`probe, native`pauseSeekKey, scheduler`now, player`times
    {
      var t := trace.decidedAtMs;
      old(scheduler.now) <= t <= scheduler.now
      && WroteClock(old(player.times.writes), player.times.writes, old(WriteAt(player, sync, None, t)), false)
    }

    /** The native duration gate of a tick: true when the tick is fully handled. */
    method GateNativeTick(player: Player, sync: SyncState) returns (handled: bool)
      requires Valid() && !disposed && host.IsNative()
      modifies `phase, `timers, `initialSnapPending, `budgets, `stall, `durationGated, `trace,
               host`pending, host`applyFailures, host`lastAppliedAnchorMs, host`catchUpRate,
               native, scheduler`now, scheduler`queue, player`times, player`rates, player`transport
      ensures Valid()
      ensures handled <==> !old(DurationIsReady(player)) || old(durationGated)
      ensures handled ==> (phase == Verifying <==> host.pending != None)
      ensures handled && host.pending == None ==> Converged(player, sync)
      ensures handled && host.pending == None ==> old(scheduler.now) <= trace.measuredAtMs <= scheduler.now
      ensures handled ==> host.pending == None || host.pending == Some(sync)
      ensures !old(DurationIsReady(player)) ==> host.pending == Some(sync) && durationGated
                                                && player.times == old(player.times) && player.transport == old(player.transport)
      ensures !handled ==> DurationIsReady(player) && !durationGated && host.pending == old(host.pending)
                           && trace == old(trace) && player.times == old(player.times)
                           && player.rates == old(player.rates) && player.transport == old(player.transport)
      ensures !handled ==> scheduler.now == old(scheduler.now) && budgets == old(budgets) && stall == old(stall)
      ensures old(player.transport.calls) <= player.transport.calls
      ensures old(DurationIsReady(player)) && old(durationGated) && !Threw(player) ==> Reapplied(player, sync)
    {
      if !DurationIsReady(player) {
        durationGated := true;
        host.pending := Some(sync);
        phase := Verifying;
        return true;
      }
      if durationGated {
        ApplyRoomClock(player, sync, None);
        return true;
      }
      return false;
    }

    /** What the tracker makes of a sampled playhead, and whether the tick has to wait for it: for
        an unconfirmed seek, or else for a paused room's playhead to come to rest. */
    function HoldAfter(s: TrackerState, seek: SeekReading, pause: PauseReading): (TrackerState, bool) {
      var v := EvaluateSeek(s, seek);
      if v.1 == Pending || !seek.roomPaused then (v.0, v.1 == Pending)
      else
        var p := SamplePause(v.0, pause);
        (p.0, !p.1.quiescent)
    }

    /** Is a written seek unconfirmed, or a paused iframe not yet quiescent? */
    method SeekConfirmShouldHold(player: Player, sync: SyncState, drift: Option<real>) returns (hold: bool, ghost atMs: real)
      requires native.Valid()
      modifies native, scheduler`now, player`transport
      ensures native.Valid() && old(scheduler.now) <= atMs <= scheduler.now
      ensures scheduler.steady ==> scheduler.now == old(scheduler.now)
      ensures !hold ==> native.probe == None && (sync.paused ==> native.pauseSettled) && player.transport == old(player.transport)
      ensures old(native.probe) == None && !sync.paused ==> !hold && native.State() == old(native.State())
      ensures !sync.paused ==> atMs == scheduler.now
      ensures var at, nowMs := atMs, scheduler.now;
              (native.State(), hold) == old(HoldAfter(native.State(),
                SeekReading(sync.timelineAnchorMs, player.Playhead(), drift, host.SoftThreshold(), sync.paused, at),
                PauseReading(player.Playhead(), player.transport.wrapperPaused, nowMs)))
      ensures player.transport == old(player.transport)
              || (sync.paused && hold && player.transport.calls == old(player.transport.calls) + [true])
    {
      var nowMs := scheduler.NowMs();
      atMs := nowMs;
      var v := native.Evaluate(SeekReading(sync.timelineAnchorMs, player.Playhead(), drift, host.SoftThreshold(),
                                           sync.paused, nowMs));
      hold := v == Pending;
      if !hold && sync.paused {
        var quiescent := SettleNativePause(player);
        hold := !quiescent;
      }
    }

    /** An element that does not play or pause like the authority is told to, before anything else. */
    predicate Nudged(player: Player, before: seq<bool>, wasPlaying: bool)
      reads host`authorityPaused, player`transport
    {
      (if wasPlaying == host.authorityPaused then before + [host.authorityPaused] else before) <= player.transport.calls
    }

    /** A pause against a playing element, a play against a paused one. */
    method ReconcileWithAuthority(player: Player) returns (nudged: bool)
      modifies player`transport
      ensures nudged == (old(player.IsPlaying()) == host.authorityPaused)
      ensures Nudged(player, old(player.transport.calls), old(player.IsPlaying()))
      ensures !nudged ==> player.transport == old(player.transport)
    {
      var pauseUnconverged := host.authorityPaused && player.IsPlaying();
      if pauseUnconverged {
        NudgeTransport(player, true);
      }
      var playUnconverged := !host.authorityPaused && !player.IsPlaying();
      if playUnconverged {
        NudgeTransport(player, false);
      }
      nudged := pauseUnconverged || playUnconverged;
    }

    /** The shared tick sample: drift, transport nudges and the confirmation hold. */
    method SampleTick(player: Player, sync: SyncState) returns (drift: Option<real>, unconverged: bool, ghost heldMs: real)
      requires Valid()
      modifies native, `trace, `sampledMs, scheduler`now, player`transport
      ensures Valid() && old(scheduler.now) <= scheduler.now
      ensures trace == old(trace).(measuredAtMs := trace.measuredAtMs)
      ensures old(scheduler.now) <= trace.measuredAtMs <= scheduler.now
      ensures scheduler.steady ==> scheduler.now == old(scheduler.now)
      ensures drift == host.Drift(player, sync, trace.measuredAtMs) && sampledMs == trace.measuredAtMs
      ensures !unconverged ==>
                && player.transport == old(player.transport)
                && player.IsPlaying() == !host.authorityPaused
                && (ConfirmsSeeks(sync) ==> native.probe == None)
                && (host.IsNative() && sync.paused ==> native.pauseSettled)
      ensures old(native.probe) == None && !sync.paused && !host.authorityPaused && old(player.IsPlaying()) ==> !unconverged
      ensures Nudged(player, old(player.transport.calls), old(player.IsPlaying()))
      ensures old(player.IsPlaying()) == host.authorityPaused ==> unconverged
      ensures ConfirmsSeeks(sync) ==> trace.measuredAtMs <= heldMs <= scheduler.now
      ensures !ConfirmsSeeks(sync) ==>
                native.State() == old(native.State()) && (unconverged <==> old(player.IsPlaying()) == host.authorityPaused)
      ensures ConfirmsSeeks(sync) && (!sync.paused || old(player.IsPlaying()) != host.authorityPaused) ==>
                var wrong, at, nowMs := old(player.IsPlaying()) == host.authorityPaused, heldMs, scheduler.now;
                var held := old(HoldAfter(native.State(),
                  SeekReading(sync.timelineAnchorMs, player.Playhead(), drift, host.SoftThreshold(), sync.paused, at),
                  PauseReading(player.Playhead(), player.transport.wrapperPaused, nowMs)));
                native.State() == held.0 && unconverged == (wrong || held.1)
    {
      hide TimersOk, BudgetsOk, HoldOk, StallPaced, DriftSec, EvaluateSeek, SamplePause;
      ghost var startMs := scheduler.now;
      drift := MeasureDrift(player, sync);
      sampledMs, heldMs := trace.measuredAtMs, trace.measuredAtMs;
      var nudged := ReconcileWithAuthority(player);
      var hold := false;
      if ConfirmsSeeks(sync) {
        hold, heldMs := SeekConfirmShouldHold(player, sync, drift);
      }
      unconverged := nudged || hold;
      StallPacedLater(stall, stall, stallSeeks, startMs, scheduler.now);
    }

    /** HTML5 wrapper at the room clock while the element is far from it. */
    method EchoAgainstRoom(player: Player, sync: SyncState) returns (echo: bool)
      modifies scheduler`now
      ensures old(scheduler.now) <= scheduler.now && (scheduler.steady ==> scheduler.now == old(scheduler.now))
      ensures echo <==> !host.IsNative() && player.hasMediaEl
                        && IsWrapperMediaEcho(player.times.el, player.times.wrapper, Fin(ExpectedSec(sync, scheduler.now)),
                                              DEFAULT_DRIFT_THRESHOLD_SEC)
    {
      if host.IsNative() || !player.hasMediaEl {
        return false;
      }
      var nowMs := scheduler.NowMs();
      echo := IsWrapperMediaEcho(player.times.el, player.times.wrapper, Fin(ExpectedSec(sync, nowMs)),
                                 DEFAULT_DRIFT_THRESHOLD_SEC);
    }

    /** The playhead has moved on since the stall sample, or there is none. */
    predicate StallQuiet(player: Player)
      reads `stall, player`times
    {
      stall.sample.Some? ==>
        StallMediaSec(player).Some?
        && StallMediaSec(player).value - stall.sample.value.mediaSec >= CATCH_UP_STALL_MIN_ADVANCE_SEC
    }

    /** A drift the catch-up rate can close: HTML5, playing, in the band, no echo, no stall. */
    predicate RateCloses(player: Player, sync: SyncState, driftSec: real, atMs: real)
      reads `stall, host`tuning, host`rttMs, player`times
    {
      RateAnswers(player, sync, driftSec, atMs) && StallQuiet(player)
    }

    predicate RateAnswers(player: Player, sync: SyncState, driftSec: real, atMs: real)
      reads host`tuning, host`rttMs, player`times
    {
      && !host.IsNative() && !sync.paused && sync.playbackRate > 0.0 && InCatchUpBand(driftSec, host.SoftThreshold())
      && !(player.hasMediaEl && IsWrapperMediaEcho(player.times.el, player.times.wrapper, Fin(ExpectedSec(sync, atMs)),
                                                   DEFAULT_DRIFT_THRESHOLD_SEC))
    }

    /** A stall judgement made at `atMs` finds the playhead stuck. */
    predicate StalledAt(player: Player, sync: SyncState, driftSec: real, atMs: real)
      reads `stall, host`tuning, host`rttMs, player`times
    {
      !host.IsNative() && JudgeStall(stall, atMs, Lagging(sync, Some(driftSec)), StallMediaSec(player)).1
    }

    /** The rate is no answer: a stuck playhead, an iframe, a paused room, or a drift beyond the
        band. */
    predicate MustSeek(player: Player, sync: SyncState, driftSec: real, judgedMs: real)
      reads `stall, host`tuning, host`rttMs, player`times
    {
      StalledAt(player, sync, driftSec, judgedMs) || host.IsNative() || sync.paused
      || CatchUpRate(sync.playbackRate, driftSec, host.SoftThreshold()).None?
    }

    /** What the seek of a tick writes: at threshold zero for a stuck playhead, else as a force
        seek that nobody requests a threshold for. */
    function Correction(player: Player, sync: SyncState, driftSec: real, anchorMs: real, judgedMs: real, t: real): seq<real>
      reads `stall, `budgets, host`tuning, host`rttMs, host`durationHint, player`times
    {
      ForceWrite(player, sync, anchorMs, if StalledAt(player, sync, driftSec, judgedMs) then Some(0.0) else None, t)
    }

    /** The seek of a stalled playhead: threshold zero, whatever the budget of the anchor. */
    method SeekStalled(player: Player, sync: SyncState, anchorMs: real)
      requires Valid() && !disposed && !host.IsNative() && !sync.paused && SeekDue(stallSeeks, scheduler.now)
      modifies `phase, `timers, `initialSnapPending, `budgets, `stall, `stallSeeks, `durationGated, `trace,
               host`pending, host`applyFailures, host`lastAppliedAnchorMs, host`catchUpRate,
               native, scheduler`now, scheduler`queue, player`times, player`rates, player`transport
      ensures Valid() && old(scheduler.now) <= scheduler.now
      ensures phase == Verifying <==> host.pending != None
      ensures host.pending == None || host.pending == Some(sync)
      ensures host.pending == None ==> Converged(player, sync) && old(scheduler.now) <= trace.measuredAtMs <= scheduler.now
      ensures !Threw(player) ==> old(scheduler.now) <= trace.decidedAtMs <= scheduler.now
      ensures !Threw(player) ==>
                player.times.writes == old(player.times.writes)
                  + SeekWrite(old(player.Playhead()), sync, trace.decidedAtMs, old(SyncBounds(player)), Fin(0.0))
      ensures if player.times.writes == old(player.times.writes) then stallSeeks == old(stallSeeks)
              else SeekNoted(old(scheduler.now)) && stallSeeks == old(stallSeeks) + [stall.lastSeekMs.value]
      ensures old(player.transport.calls) <= player.transport.calls
      ensures host.catchUpRate == None
    {
      hide TimersAgree, StallPaced, SeekDue, Converged, DriftSec;
      ghost var before, startMs := stall, scheduler.now;
      ClearCatchUpRate(player);
      TryForceSeek(player, sync, anchorMs, Some(0.0));
      if player.times.writes != old(player.times.writes) {
        StallSeekPaced(before, stallSeeks, startMs, startMs, stall.lastSeekMs.value, scheduler.now);
        stallSeeks := stallSeeks + [stall.lastSeekMs.value];
      }
    }

    /** A stalled playhead is seeked with threshold zero, whatever the budget of the anchor: the
        apply writes it unless it is on the clamped room clock already, and the next such write
        is a gap away. */
    method EscalateStall(player: Player, sync: SyncState, driftSec: real, anchorMs: real)
      returns (stalled: bool)
      requires Valid() && !disposed && !host.IsNative()
      modifies `phase, `timers, `initialSnapPending, `budgets, `stall, `stallSeeks, `judgedMs, `durationGated, `trace,
               host`pending, host`applyFailures, host`lastAppliedAnchorMs, host`catchUpRate,
               native, scheduler`now, scheduler`queue, player`times, player`rates, player`transport
      ensures Valid() && old(scheduler.now) <= judgedMs <= scheduler.now
      ensures scheduler.steady ==> judgedMs == old(scheduler.now)
      ensures var verdict := JudgeStall(old(stall), judgedMs, old(Lagging(sync, Some(driftSec))), old(StallMediaSec(player)));
              stalled == verdict.1 && (!stalled ==> stall == verdict.0)
      ensures var at := judgedMs; stalled == old(StalledAt(player, sync, driftSec, at))
      ensures old(StallQuiet(player)) ==> !stalled && (stall.sample.Some? ==> StallMediaSec(player).Some? && stall.sample.value.mediaSec <= StallMediaSec(player).value)
      ensures !stalled ==>
                && scheduler.now == judgedMs && scheduler.queue == old(scheduler.queue)
                && player.times == old(player.times) && player.rates == old(player.rates)
                && player.transport == old(player.transport) && stallSeeks == old(stallSeeks)
                && timers == old(timers) && budgets == old(budgets) && trace == old(trace) && phase == old(phase)
                && durationGated == old(durationGated) && initialSnapPending == old(initialSnapPending)
                && host.pending == old(host.pending) && host.catchUpRate == old(host.catchUpRate)
                && host.lastAppliedAnchorMs == old(host.lastAppliedAnchorMs) && native.State() == old(native.State())
      ensures stalled ==>
                && (phase == Verifying <==> host.pending != None)
                && (host.pending == None || host.pending == Some(sync))
                && (host.pending == None ==> Converged(player, sync) && old(scheduler.now) <= trace.measuredAtMs <= scheduler.now)
      ensures stalled && !Threw(player) ==> judgedMs <= trace.decidedAtMs <= scheduler.now
      ensures stalled && !Threw(player) ==>
                player.times.writes == old(player.times.writes)
                  + SeekWrite(old(player.Playhead()), sync, trace.decidedAtMs, old(SyncBounds(player)), Fin(0.0))
      ensures stalled ==>
                if player.times.writes == old(player.times.writes) then stallSeeks == old(stallSeeks)
                else SeekNoted(judgedMs) && stallSeeks == old(stallSeeks) + [stall.lastSeekMs.value]
      ensures old(player.transport.calls) <= player.transport.calls
      ensures stalled ==> host.catchUpRate == None
    {
      hide TimersAgree, StallPaced, JudgeStall, SeekDue, Converged;
      ghost var before, startMs := stall, scheduler.now;
      ghost var lagging, media := Lagging(sync, Some(driftSec)), StallMediaSec(player);
      stalled := ShouldEscalateStall(player, sync, Some(driftSec));
      judgedMs := scheduler.now;
      JudgePaced(before, stallSeeks, startMs, judgedMs, lagging, media);
      QuietIsNotStalled(before, judgedMs, lagging, media);
      if stalled {
        StalledIsDue(before, stallSeeks, startMs, judgedMs, lagging, media);
        SeekStalled(player, sync, anchorMs);
      }
    }

    /** The catch-up rate, when the drift is in the band and the wrapper does not just echo the
        room clock. */
    method TryBoost(player: Player, sync: SyncState, driftSec: real) returns (boosted: bool)
      requires Valid() && !holdLocalSeek
      modifies `phase, host`pending, host`catchUpRate, scheduler`now, player`rates
      ensures Valid() && old(scheduler.now) <= scheduler.now && (scheduler.steady ==> scheduler.now == old(scheduler.now))
      ensures boosted ==>
                && host.pending == Some(sync) && phase == Verifying
                && host.catchUpRate == CatchUpRate(sync.playbackRate, driftSec, host.SoftThreshold())
                && host.catchUpRate.Some? && (player.obeysRates ==> player.RunsAt(host.catchUpRate.value))
      ensures !boosted ==> phase == old(phase) && host.pending == old(host.pending)
                           && host.catchUpRate == old(host.catchUpRate) && player.rates == old(player.rates)
      ensures boosted <==>
                && !host.IsNative() && !sync.paused && CatchUpRate(sync.playbackRate, driftSec, host.SoftThreshold()).Some?
                && !(player.hasMediaEl && IsWrapperMediaEcho(player.times.el, player.times.wrapper,
                       Fin(ExpectedSec(sync, scheduler.now)), DEFAULT_DRIFT_THRESHOLD_SEC))
    {
      hide TimersAgree, StallPaced, ExpectedSec;
      boosted := false;
      if !host.IsNative() && !sync.paused && InCatchUpBand(driftSec, host.SoftThreshold()) {
        ghost var startMs := scheduler.now;
        var echo := EchoAgainstRoom(player, sync);
        StallPacedLater(stall, stall, stallSeeks, startMs, scheduler.now);
        if !echo {
          var rate := ActivateCatchUpRate(player, sync, driftSec);
          if rate.Some? {
            host.pending := Some(sync);
            phase := Verifying;
            boosted := true;
          }
        }
      }
    }

    /** What a tick does about the drift it has sampled: within the soft threshold nothing is
        written to the playhead, beyond it the correction is, unless the rate can answer. */
    twostate predicate Corrects(player: Player, sync: SyncState, anchorMs: real)
      reads `trace, `sampledMs, `judgedMs, `stall, `budgets, host`tuning, host`rttMs, host`durationHint,
            scheduler`now, player`times
    {
      var at, j, t := sampledMs, judgedMs, trace.decidedAtMs;
      var d := old(host.Drift(player, sync, at));
      old(scheduler.now) <= at <= scheduler.now &&
      if d.None? || d.value <= host.SoftThreshold() then
        player.times == old(player.times)
      else
        && (!host.IsNative() ==> at <= j <= scheduler.now)
        && (|| Threw(player)
            || (WroteClock(old(player.times.writes), player.times.writes, old(Correction(player, sync, d.value, anchorMs, j, t)), MayEscalate(sync))
                && at <= t <= scheduler.now)
            || (!old(MustSeek(player, sync, d.value, j)) && player.times == old(player.times)))
    }

    /** The correction of a playhead that is not stuck: by rate when it can help, else by seek. */
    method CorrectUnstalled(player: Player, sync: SyncState, driftSec: real, anchorMs: real)
      requires Valid() && !disposed && !holdLocalSeek && (host.IsNative() ==> DurationIsReady(player))
      modifies `phase, `timers, `initialSnapPending, `budgets, `stall, `durationGated, `trace,
               host`pending, host`applyFailures, host`lastAppliedAnchorMs, host`catchUpRate,
               native, scheduler`now, scheduler`queue, player`times, player`rates, player`transport
      ensures Valid() && old(scheduler.now) <= scheduler.now
      ensures phase == Verifying <==> host.pending != None
      ensures host.pending == None || host.pending == Some(sync)
      ensures host.pending == None ==> Converged(player, sync) && old(scheduler.now) <= trace.measuredAtMs <= scheduler.now
      ensures var t := trace.decidedAtMs;
              var write := old(ForceWrite(player, sync, anchorMs, None, t));
              var byRate := !host.IsNative() && !sync.paused && CatchUpRate(sync.playbackRate, driftSec, host.SoftThreshold()).Some?;
              || Threw(player)
              || (WroteClock(old(player.times.writes), player.times.writes, write, MayEscalate(sync)) && old(scheduler.now) <= t <= scheduler.now)
              || (byRate && player.times == old(player.times))
      ensures old(RateAnswers(player, sync, driftSec, scheduler.now)) && scheduler.steady ==>
                && host.pending == Some(sync) && player.times == old(player.times) && player.transport == old(player.transport)
                && host.catchUpRate == CatchUpRate(sync.playbackRate, driftSec, host.SoftThreshold())
                && (player.obeysRates ==> player.RunsAt(host.catchUpRate.value))
                && native.State() == old(native.State()) && scheduler.now == old(scheduler.now) && stall == old(stall)
      ensures old(player.transport.calls) <= player.transport.calls
    {
      hide TimersOk, BudgetsOk, HoldOk, DriftSec, StallPaced, PredictedWrites, ExpectedSec, Converged, SeekCeilingSec;
      hide WroteClock, ForceWrite;
      var boosted := TryBoost(player, sync, driftSec);
      if !boosted {
        TryForceSeek(player, sync, anchorMs, None);
      }
    }

    /** Rate catch-up when it can help, a hard seek when the playhead is stuck or too far. */
    method TryCatchUpOrForceSeek(player: Player, sync: SyncState, driftSec: real, anchorMs: real)
      requires Valid() && !disposed && !holdLocalSeek && (host.IsNative() ==> DurationIsReady(player))
      modifies `phase, `timers, `initialSnapPending, `budgets, `stall, `stallSeeks, `judgedMs, `durationGated, `trace,
               host`pending, host`applyFailures, host`lastAppliedAnchorMs, host`catchUpRate,
               native, scheduler`now, scheduler`queue, player`times, player`rates, player`transport
      ensures Valid()
      ensures phase == Verifying <==> host.pending != None
      ensures host.pending == None || host.pending == Some(sync)
      ensures host.pending == None ==> Converged(player, sync)
      ensures host.pending == None ==> old(scheduler.now) <= trace.measuredAtMs <= scheduler.now
      ensures old(scheduler.now) <= scheduler.now && (!host.IsNative() ==> old(scheduler.now) <= judgedMs <= scheduler.now)
      ensures var j, t := judgedMs, trace.decidedAtMs;
              var write := old(Correction(player, sync, driftSec, anchorMs, j, t));
              || Threw(player)
              || (WroteClock(old(player.times.writes), player.times.writes, write, MayEscalate(sync)) && old(scheduler.now) <= t <= scheduler.now)
              || (!old(MustSeek(player, sync, driftSec, j)) && player.times == old(player.times))
      ensures old(RateCloses(player, sync, driftSec, scheduler.now)) && scheduler.steady ==>
                && host.pending == Some(sync) && player.times == old(player.times) && player.transport == old(player.transport)
                && host.catchUpRate == CatchUpRate(sync.playbackRate, driftSec, host.SoftThreshold())
                && (player.obeysRates ==> player.RunsAt(host.catchUpRate.value))
                && native.State() == old(native.State()) && scheduler.now == old(scheduler.now)
                && (stall.sample.Some? ==> StallMediaSec(player).Some? && stall.sample.value.mediaSec <= StallMediaSec(player).value)
      ensures old(player.transport.calls) <= player.transport.calls
    {
      hide Valid, DurationIsReady, StallMediaSec, MayEscalate;
      hide TimersOk, BudgetsOk, HoldOk, DriftSec, StallPaced, PredictedWrites, ExpectedSec, Converged, SeekCeilingSec;
      hide WroteClock, SeekWrite, CatchUpRate, JudgeStall, StallQuiet;
      if !host.IsNative() {
        var stalled := EscalateStall(player, sync, driftSec, anchorMs);
        if stalled {
          WrittenOnce(old(player.times.writes), SeekWrite(old(player.Playhead()), sync, trace.decidedAtMs, old(SyncBounds(player)), Fin(0.0)), MayEscalate(sync));
          return;
        }
      }
      CorrectUnstalled(player, sync, driftSec, anchorMs);
    }

    /** The sampled state is converged: drop the pending snapshot, and the boost too once the
        drift is inside the clear band. */
    method ClearPendingWhenConverged(player: Player, drift: Option<real>)
      modifies `initialSnapPending, `stall, host`pending, host`catchUpRate, player`rates
      ensures !initialSnapPending && host.pending == None
      ensures host.catchUpRate == if drift.None? || drift.value <= CATCH_UP_CLEAR_DRIFT_SEC then None else old(host.catchUpRate)
      ensures stall == if drift.None? || drift.value <= CATCH_UP_CLEAR_DRIFT_SEC then StallProbe(None, old(stall.lastSeekMs)) else old(stall)
      ensures host.catchUpRate == old(host.catchUpRate) ==> player.rates == old(player.rates)
      ensures host.catchUpRate != old(host.catchUpRate) && player.obeysRates ==> player.RunsAt(host.playback.playbackRate)
    {
      initialSnapPending := false;
      host.pending := None;
      if drift.None? || drift.value <= CATCH_UP_CLEAR_DRIFT_SEC {
        ClearCatchUpRate(player);
        stall := stall.(sample := None);
      }
    }

    /** What a tick past its guards does: nudges and corrects, or, for a gated iframe, waits for
        the duration and then puts it on the room clock. */
    twostate predicate Ticked(player: Player, sync: SyncState, anchorMs: real)
      reads `trace, `sampledMs, `judgedMs, `stall, `budgets, `initialSnapPending, `durationGated,
            host`tuning, host`mediaReady, host`rttMs, host`durationHint, host`authorityPaused, host`pending,
            native`probe, native`pauseSeekKey, scheduler`now, player`times, player`transport
    {
      && (old(TicksFreely(player)) ==>
            Corrects(player, sync, anchorMs) && Nudged(player, old(player.transport.calls), old(player.IsPlaying())))
      && (host.IsNative() && !old(DurationIsReady(player)) ==>
            host.pending == Some(sync) && durationGated
            && player.times == old(player.times) && player.transport == old(player.transport))
      && (host.IsNative() && old(DurationIsReady(player)) && old(durationGated) && !Threw(player) ==> Reapplied(player, sync))
    }

    /** A verify tick past its guards. */
    method VerifyPlayer(player: Player, sync: SyncState, anchorMs: real)
      requires Valid() && !disposed && !holdLocalSeek
      modifies `phase, `timers, `initialSnapPending, `budgets, `stall, `stallSeeks, `sampledMs, `judgedMs, `durationGated, `trace,
               host`pending, host`applyFailures, host`lastAppliedAnchorMs, host`catchUpRate,
               native, scheduler`now, scheduler`queue, player`times, player`rates, player`transport
      ensures Valid()
      ensures Ticked(player, sync, anchorMs)
      ensures phase == Verifying <==> host.pending != None
      ensures host.pending == None || host.pending == Some(sync)
      ensures host.pending == None ==> ClearedSoundly(player, sync, true)
      ensures host.pending == None ==> old(scheduler.now) <= trace.measuredAtMs <= scheduler.now
    {
      hide Valid, DriftSec, Correction, MustSeek, WroteClock, WriteAt, Nudged, RateCloses, StallKept;
      var handled := false;
      if host.IsNative() {
        handled := GateNativeTick(player, sync);
      }
      if !handled {
        VerifySample(player, sync, anchorMs);
      }
    }

    /** The verify tick found everything in place. */
    method VerifiedConverged(player: Player, sync: SyncState, drift: Option<real>)
      requires Valid() && drift == host.Drift(player, sync, trace.measuredAtMs)
      requires drift.None? || drift.value <= host.SoftThreshold()
      requires player.IsPlaying() == !host.authorityPaused && Settled(player, sync)
      modifies `phase, `initialSnapPending, `stall, host`pending, host`catchUpRate, player`rates
      ensures Valid() && phase == Idle && host.pending == None && ClearedSoundly(player, sync, true)
    {
      hide TimersAgree, DriftSec, ExpectedSec, SeekCeilingSec;
      ClearPendingWhenConverged(player, drift);
      phase := Idle;
    }

    method VerifySample(player: Player, sync: SyncState, anchorMs: real)
      requires Valid() && !disposed && !holdLocalSeek
      requires host.IsNative() ==> DurationIsReady(player) && !durationGated
      modifies `phase, `timers, `initialSnapPending, `budgets, `stall, `stallSeeks, `sampledMs, `judgedMs, `durationGated, `trace,
               host`pending, host`applyFailures, host`lastAppliedAnchorMs, host`catchUpRate,
               native, scheduler`now, scheduler`queue, player`times, player`rates, player`transport
      ensures Valid()
      ensures Corrects(player, sync, anchorMs)
      ensures phase == Verifying <==> host.pending != None
      ensures host.pending == None || host.pending == Some(sync)
      ensures host.pending == None ==> ClearedSoundly(player, sync, true)
      ensures host.pending == None ==> old(scheduler.now) <= trace.measuredAtMs <= scheduler.now
      ensures Nudged(player, old(player.transport.calls), old(player.IsPlaying()))
    {
      hide Core, StallOk, DriftSec, CatchUpRate, PredictedWrites, Correction, WroteClock,
           EvaluateSeek, SamplePause, HoldAfter;
      ghost var heldMs;
      var drift, unconverged;
      drift, unconverged, heldMs := SampleTick(player, sync);
      if !unconverged && (drift.None? || drift.value <= host.SoftThreshold()) {
        VerifiedConverged(player, sync, drift);
        return;
      }
      phase := Verifying;
      if drift.Some? && drift.value > host.SoftThreshold() {
        TryCatchUpOrForceSeek(player, sync, drift.value, anchorMs);
      } else {
        // The playhead is fine: only transport or a confirmation is outstanding.
        host.pending := Some(sync);
      }
    }

    method RunVerifyTick(anchorAtSchedule: real)
      requires Valid()
      modifies `phase, `timers, `initialSnapPending, `budgets, `stall, `stallSeeks, `sampledMs, `judgedMs, `durationGated, `trace,
               host`pending, host`applyFailures, host`lastAppliedAnchorMs, host`catchUpRate, native, scheduler`now, scheduler`queue,
               Targets(host.player)`times, Targets(host.player)`rates, Targets(host.player)`transport
      ensures Valid()
      ensures !Blocked() && host.playback.timelineAnchorMs == anchorAtSchedule ==>
                Ticked(host.player, host.playback, anchorAtSchedule)
      ensures Blocked() || host.playback.timelineAnchorMs != anchorAtSchedule ==>
                host.pending == old(host.pending) && timers == old(timers) && phase == old(phase) && Untouched()
      ensures !Blocked() && host.playback.timelineAnchorMs == anchorAtSchedule ==>
                && (phase == Verifying <==> host.pending != None)
                && (host.pending == None || host.pending == Some(host.playback))
                && (host.pending == None ==> ClearedSoundly(host.player, host.playback, true))
      ensures !Blocked() && host.playback.timelineAnchorMs == anchorAtSchedule && host.pending == None ==>
                old(scheduler.now) <= trace.measuredAtMs <= scheduler.now
    {
      if disposed || holdLocalSeek || !host.mediaReady {
        return;
      }
      var player := host.player;
      if player == null || host.playback.timelineAnchorMs != anchorAtSchedule {
        return;
      }
      VerifyPlayer(player, host.playback, anchorAtSchedule);
    }

    /** No duration gate stands between a tick and the drift. */
    predicate TicksFreely(player: Player)
      reads `durationGated, host`tuning, host`durationHint, player`times
    {
      !host.IsNative() || (DurationIsReady(player) && !durationGated)
    }

    /** No tick may act: disposed, a local seek held, media not ready, or no player. */
    predicate Blocked()
      reads `disposed, `holdLocalSeek, host`mediaReady, host`player
    {
      disposed || holdLocalSeek || !host.mediaReady || host.player == null
    }

    /** The host's player is as it was. */
    twostate predicate Untouched()
      reads host`player, Targets(host.player)
    {
      host.player == old(host.player)
      && (host.player != null ==> host.player.times == old(host.player.times) && host.player.rates == old(host.player.rates)
                                  && host.player.transport == old(host.player.transport))
    }

    /** A watchdog tick past its guards. */
    method WatchPlayer(player: Player, sync: SyncState)
      requires Valid() && !disposed && !holdLocalSeek
      modifies `phase, `timers, `initialSnapPending, `budgets, `stall, `stallSeeks, `sampledMs, `judgedMs, `durationGated, `trace,
               host`pending, host`applyFailures, host`lastAppliedAnchorMs, host`catchUpRate,
               native, scheduler`now, scheduler`queue, player`times, player`rates, player`transport
      ensures Valid()
      ensures Ticked(player, sync, host.playback.timelineAnchorMs)
      ensures host.pending == None || host.pending == Some(sync) || host.pending == old(host.pending)
      ensures host.pending == None && old(host.pending) != None ==> ClearedSoundly(player, sync, false)
      ensures host.pending == None && old(host.pending) != None ==> old(scheduler.now) <= trace.measuredAtMs <= scheduler.now
      ensures old(RateOnly(player, sync)) ==>
                player.times == old(player.times) && player.transport == old(player.transport)
                && scheduler.now == old(scheduler.now) && native.probe == None
                && RateCorrected(player, sync, old(host.Drift(player, sync, scheduler.now)).value,
                                 old(host.catchUpRate), old(player.rates))
                && StallKept(player, old(stall))
      ensures host.pending == None && old(host.pending) != None ==> phase == Idle
    {
      hide Valid, DriftSec, Correction, MustSeek, WroteClock, WriteAt, Nudged, RateCloses, StallKept;
      var handled := false;
      if host.IsNative() {
        handled := GateNativeTick(player, sync);
      }
      if !handled {
        WatchSample(player, sync);
      }
    }

    /** The watchdog found the playhead in place: pending again while transport or a hold is
        outstanding, cleared otherwise. */
    method WatchConverged(player: Player, sync: SyncState, drift: Option<real>, unconverged: bool)
      requires Valid() && drift == host.Drift(player, sync, trace.measuredAtMs)
      requires drift.Some? && drift.value <= host.SoftThreshold()
      requires !unconverged ==> player.IsPlaying() == !host.authorityPaused && Settled(player, sync)
      modifies `phase, `initialSnapPending, `stall, host`pending, host`catchUpRate, player`rates
      ensures Valid() && host.pending == if unconverged then Some(sync) else None
      ensures !unconverged ==> ClearedSoundly(player, sync, false)
      ensures var done := !unconverged && drift.value <= CATCH_UP_CLEAR_DRIFT_SEC;
              && host.catchUpRate == (if done then None else old(host.catchUpRate))
              && stall == (if done then StallProbe(None, old(stall.lastSeekMs)) else old(stall))
      ensures host.catchUpRate == old(host.catchUpRate) ==> player.rates == old(player.rates)
      ensures host.catchUpRate != old(host.catchUpRate) && player.obeysRates ==> player.RunsAt(host.playback.playbackRate)
      ensures phase == if unconverged then old(phase) else Idle
    {
      hide TimersAgree, DriftSec, ExpectedSec, SeekCeilingSec;
      if unconverged {
        host.pending := Some(sync);
        return;
      }
      ClearPendingWhenConverged(player, drift);
      if phase == Verifying {
        phase := Idle;
      }
    }

    /** A lagging obedient player is corrected by rate alone: boosted in the band, left alone
        below it, back at the room rate inside the clear band. */
    method WatchSample(player: Player, sync: SyncState)
      requires Valid() && !disposed && !holdLocalSeek
      requires host.IsNative() ==> DurationIsReady(player) && !durationGated
      modifies `phase, `timers, `initialSnapPending, `budgets, `stall, `stallSeeks, `sampledMs, `judgedMs, `durationGated, `trace,
               host`pending, host`applyFailures, host`lastAppliedAnchorMs, host`catchUpRate,
               native, scheduler`now, scheduler`queue, player`times, player`rates, player`transport
      ensures Valid()
      ensures Corrects(player, sync, host.playback.timelineAnchorMs)
      ensures host.pending == None || host.pending == Some(sync) || host.pending == old(host.pending)
      ensures host.pending == None && old(host.pending) != None ==> ClearedSoundly(player, sync, false)
      ensures host.pending == None && old(host.pending) != None ==> old(scheduler.now) <= trace.measuredAtMs <= scheduler.now
      ensures old(RateOnly(player, sync)) ==>
                player.times == old(player.times) && player.transport == old(player.transport)
                && scheduler.now == old(scheduler.now) && native.probe == None
                && RateCorrected(player, sync, old(host.Drift(player, sync, scheduler.now)).value,
                                 old(host.catchUpRate), old(player.rates))
                && StallKept(player, old(stall))
      ensures Nudged(player, old(player.transport.calls), old(player.IsPlaying()))
      ensures host.pending == None && old(host.pending) != None ==> phase == Idle
    {
      hide Core, StallOk, DriftSec, ExpectedSec, PredictedWrites, SeekCeilingSec, Correction, WroteClock,
           EvaluateSeek, SamplePause, HoldAfter;
      ghost var heldMs;
      var drift, unconverged;
      drift, unconverged, heldMs := SampleTick(player, sync);
      match PlanDriftCorrection(drift, host.SoftThreshold())
      case Noop =>
      case Clear =>
        WatchConverged(player, sync, drift, unconverged);
      case Apply =>
        phase := Verifying;
        TryCatchUpOrForceSeek(player, sync, drift.value, host.playback.timelineAnchorMs);
    }

    /** The rate and the pending snapshot after a rate-only correction of drift `d`. */
    ghost predicate RateCorrected(player: Player, sync: SyncState, d: real, rateBefore: Option<real>, ratesBefore: Rates)
      reads host`catchUpRate, host`rttMs, host`pending, host`playback, player`rates
    {
      var soft := host.SoftThreshold();
      && host.catchUpRate == RateAfter(sync, d, soft, rateBefore)
      && (host.pending == None <==> d <= soft)
      && (host.catchUpRate == rateBefore && d <= soft ==> player.rates == ratesBefore)
      && (player.obeysRates && d > soft && host.catchUpRate.Some? ==> player.RunsAt(host.catchUpRate.value))
      && (player.obeysRates && host.catchUpRate == None && rateBefore != None ==> player.RunsAt(host.playback.playbackRate))
    }

    /** The stall sample, if any, is the old one or not ahead of the playhead. */
    ghost predicate StallKept(player: Player, before: StallProbe)
      reads `stall, player`times
    {
      stall.sample.Some? ==>
        stall == before
        || (StallMediaSec(player).Some? && stall.sample.value.mediaSec <= StallMediaSec(player).value)
    }

    /** A tick that only has the rate to correct: the drift is measurable, and either already
        within the soft threshold or closable by rate. */
    predicate RateOnly(player: Player, sync: SyncState)
      reads `stall, host`tuning, host`authorityPaused, host`rttMs, host`durationHint, native`probe, scheduler`now,
            player`transport, player`times
    {
      var d := host.Drift(player, sync, scheduler.now);
      Coasting(player, sync) && d.Some?
      && (d.value <= host.SoftThreshold() || RateCloses(player, sync, d.value, scheduler.now))
    }

    /** Playing HTML5 in a playing room, nothing to confirm, a clock that stands still. */
    predicate Coasting(player: Player, sync: SyncState)
      reads host`tuning, host`authorityPaused, native`probe, player`transport
    {
      scheduler.steady && !host.IsNative() && !sync.paused && !host.authorityPaused
      && player.IsPlaying() && native.probe.None?
    }

    /** The snapshot a watchdog tick measures and applies. */
    function WatchedState(): SyncState
      reads host`pending, host`playback
    {
      if host.pending.Some? then host.pending.value else host.playback
    }

    method RunWatchdogTick()
      requires Valid()
      modifies `phase, `timers, `initialSnapPending, `budgets, `stall, `stallSeeks, `sampledMs, `judgedMs, `durationGated, `trace,
               host`pending, host`applyFailures, host`lastAppliedAnchorMs, host`catchUpRate, native, scheduler`now, scheduler`queue,
               Targets(host.player)`times, Targets(host.player)`rates, Targets(host.player)`transport
      ensures Valid()
      ensures !Blocked() ==> Ticked(host.player, old(WatchedState()), host.playback.timelineAnchorMs)
      ensures Blocked() ==> host.pending == old(host.pending) && timers == old(timers) && phase == old(phase) && Untouched()
      ensures !Blocked() && host.pending == None && old(host.pending) != None ==>
                ClearedSoundly(host.player, old(host.pending).value, false)
      ensures !Blocked() && host.pending == None && old(host.pending) != None ==>
                old(scheduler.now) <= trace.measuredAtMs <= scheduler.now
      ensures !Blocked() && old(RateOnly(host.player, WatchedState())) ==>
                var player := host.player;
                var sync := old(WatchedState());
                player.times == old(host.player.times) && player.transport == old(host.player.transport)
                && scheduler.now == old(scheduler.now) && native.probe == None
                && (host.pending == None || host.pending == Some(sync) || host.pending == old(host.pending))
                && RateCorrected(player, sync, old(host.Drift(host.player, sync, scheduler.now)).value,
                                 old(host.catchUpRate), old(host.player.rates))
                && StallKept(player, old(stall))
      ensures !Blocked() && host.pending == None && old(host.pending) != None ==> phase == Idle
    {
      hide TimersAgree, DriftSec, CatchUpRate;
      if disposed || holdLocalSeek || !host.mediaReady {
        return;
      }
      var player := host.player;
      if player == null {
        return;
      }
      WatchPlayer(player, WatchedState());
    }

    /** A timeout that fires is no longer armed, and a verify timer leaves the burst; none of
        those is armed while a local seek is held. */
    method TakeTimeout(id: nat) returns (task: Task)
      requires Valid() && id in scheduler.queue.armed
      modifies `timers, scheduler`queue
      ensures Valid() && task == old(scheduler.queue.armed[id].task)
      ensures timers == if task.VerifyTick? then Timers(Remove(old(timers.retry), id), old(timers.pause)) else old(timers)
      ensures id !in scheduler.queue.armed && (holdLocalSeek ==> task.TransportTick?)
    {
      hide StallPaced, BudgetsOk;
      task := scheduler.queue.armed[id].task;
      FiredAgrees(scheduler.queue.armed, scheduler.queue.nextId, timers.retry, timers.pause, id);
      scheduler.ClearTimeout(id);
      if task.VerifyTick? {
        timers := timers.(retry := Remove(timers.retry, id));
      }
    }

    /** The tick of a timeout that fires. */
    method FireTimeout(id: nat)
      requires Valid() && id in scheduler.queue.armed
      modifies `phase, `timers, `initialSnapPending, `budgets, `stall, `stallSeeks, `sampledMs, `judgedMs, `durationGated, `trace,
               host`pending, host`applyFailures, host`lastAppliedAnchorMs, host`catchUpRate, native, scheduler`now, scheduler`queue,
               Targets(host.player)`times, Targets(host.player)`rates, Targets(host.player)`transport
      ensures Valid()
      ensures old(scheduler.queue.armed[id].task.VerifyTick?) && host.pending == None && old(host.pending) != None ==>
                host.player != null && ClearedSoundly(host.player, host.playback, true)
                && old(scheduler.now) <= trace.measuredAtMs <= scheduler.now
      ensures old(scheduler.queue.armed[id].task.TransportTick?) ==> host.pending == old(host.pending) && timers == old(timers)
      ensures holdLocalSeek ==> old(scheduler.queue.armed[id].task.TransportTick?)
      ensures var task := old(scheduler.queue.armed[id].task);
              task.VerifyTick? && !Blocked() && host.playback.timelineAnchorMs == task.anchorMs ==>
                Ticked(host.player, host.playback, task.anchorMs)
      ensures var task := old(scheduler.queue.armed[id].task);
              task.TransportTick? && host.player != null ==> NudgeTicked(host.player, task.paused)
      ensures var task := old(scheduler.queue.armed[id].task);
              task.VerifyTick? && (Blocked() || host.playback.timelineAnchorMs != task.anchorMs) ==>
                timers == Timers(Remove(old(timers.retry), id), old(timers.pause))
    {
      hide Valid, WroteClock, Correction, MustSeek, WriteAt, Nudged, TicksFreely, DriftSec, SamplePause, Asked, ClearedSoundly;
      var task := TakeTimeout(id);
      match task
      case VerifyTick(anchorMs) =>
        RunVerifyTick(anchorMs);
      case TransportTick(paused) =>
        RunTransportTick(paused);
    }

    // -------------------------------------------------------------- lifecycle

    method Start()
      requires Valid()
      modifies `disposed, `started
      ensures Valid() && started && !disposed
    {
      disposed := false;
      started := true;
    }

    /** A boosted player was told the room rate. */
    twostate predicate Unboosted(player: Player?)
      reads host`catchUpRate, host`playback, Targets(player)`rates
    {
      player != null && old(host.catchUpRate) != None ==>
        player.rates.writes == old(player.rates.writes) + [host.playback.playbackRate]
        && (player.obeysRates ==> player.RunsAt(host.playback.playbackRate))
    }

    /** No timer, probe, boost or gate is left, and the late-join snap is due again. */
    method ForgetSync()
      requires Valid()
      modifies `timers, `initialSnapPending, `stall, `stallSeeks, `durationGated,
               host`catchUpRate, native, scheduler`queue, Targets(host.player)`rates
      ensures Valid() && initialSnapPending && !durationGated
      ensures timers == Timers([], []) && scheduler.queue.armed == map[] && native.State() == Fresh
      ensures host.catchUpRate == None && stall == StallProbe(None, None) && stallSeeks == []
      ensures Unboosted(host.player)
    {
      hide StallPaced;
      ClearRetryTimers();
      ClearPauseTimers();
      ClearCatchUpRate(host.player);
      stall, stallSeeks := StallProbe(None, None), [];
      FreshStallPaced(scheduler.now);
      initialSnapPending := true;
      durationGated := false;
      native.Reset();
    }

    /** Drop every timer, probe and boost; the next start begins with a late-join snap. */
    method Dispose()
      requires Valid()
      modifies `phase, `timers, `initialSnapPending, `stall, `stallSeeks, `durationGated, `disposed, `started,
               host`catchUpRate, native, scheduler`queue, Targets(host.player)`rates
      ensures Valid() && disposed && !started && phase == Idle && initialSnapPending && !durationGated
      ensures timers == Timers([], []) && scheduler.queue.armed == map[] && native.State() == Fresh
      ensures host.catchUpRate == None && stall == StallProbe(None, None)
      ensures Unboosted(host.player)
    {
      disposed := true;
      ForgetSync();
      started := false;
      phase := Idle;
    }

    /** Media swap: as `Dispose`, but the engine keeps running and the budgets start over. */
    method Reset()
      requires Valid()
      modifies `phase, `timers, `initialSnapPending, `budgets, `stall, `stallSeeks, `durationGated,
               host`catchUpRate, native, scheduler`queue, Targets(host.player)`rates
      ensures Valid() && initialSnapPending && !durationGated
      ensures phase == if holdLocalSeek then old(phase) else Idle
      ensures timers == Timers([], []) && scheduler.queue.armed == map[] && native.State() == Fresh
      ensures host.catchUpRate == None && stall == StallProbe(None, None)
      ensures budgets == Budgets(AnchorBudget(0.0, 0), AnchorBudget(0.0, 0))
      ensures Unboosted(host.player)
    {
      ForgetSync();
      budgets := Budgets(AnchorBudget(0.0, 0), AnchorBudget(0.0, 0));
      if !holdLocalSeek {
        phase := Idle;
      }
    }

    /** Holding a local seek silences verification and the boost; leaving the hold resumes
        the verify burst for the current anchor. */
    method SetHoldLocalSeek(hold: bool)
      requires Valid()
      modifies `holdLocalSeek, `timers, `budgets, `phase, host`catchUpRate, scheduler`queue, Targets(host.player)`rates
      ensures Valid() && holdLocalSeek == hold
      ensures hold ==> timers.retry == [] && host.catchUpRate == None && Phase() == HoldingLocalSeek && phase == old(phase)
      ensures !hold ==> Phase() == phase == Verifying && |timers.retry| == |host.RetryDelays()| && host.catchUpRate == old(host.catchUpRate)
      ensures hold ==> Unboosted(host.player)
    {
      holdLocalSeek := false;
      if hold {
        ClearRetryTimers();
        ClearCatchUpRate(host.player);
        holdLocalSeek := true;
        return;
      }
      phase := if host.pending.Some? then Verifying else Idle;
      ScheduleVerifyBurst(host.playback.timelineAnchorMs);
    }

    method OnAuthorityAnchor(anchorMs: real)
      requires Valid()
      modifies `timers, `budgets, `phase, scheduler`queue
      ensures Valid()
      ensures budgets == Budgets(ResetBudget(old(budgets.force), anchorMs), ResetBudget(old(budgets.escalate), anchorMs))
      ensures timers.retry == if holdLocalSeek then [] else Ids(old(scheduler.queue.nextId), |host.RetryDelays()|)
      ensures phase == if holdLocalSeek then old(phase) else Verifying
    {
      ScheduleVerifyBurst(anchorMs);
    }

    /** A finite iframe duration arrived: a gated room clock is applied and verified. */
    method OnDurationAvailable()
      requires Valid()
      modifies `phase, `timers, `initialSnapPending, `budgets, `stall, `durationGated, `trace,
               host`pending, host`applyFailures, host`lastAppliedAnchorMs, host`catchUpRate, native, scheduler`now, scheduler`queue,
               Targets(host.player)`times, Targets(host.player)`rates, Targets(host.player)`transport
      ensures Valid()
      ensures Blocked() || !host.IsNative() || !old(durationGated) ==>
                host.pending == old(host.pending) && timers == old(timers) && phase == old(phase) && Untouched()
      ensures !Blocked() && host.IsNative() && old(durationGated) && old(DurationIsReady(host.player)) ==>
                phase == Verifying
                && (host.pending == None ==> Converged(host.player, host.playback)
                                             && old(scheduler.now) <= trace.measuredAtMs <= scheduler.now)
      ensures !Blocked() && host.IsNative() && old(durationGated) && old(DurationIsReady(host.player)) ==>
                |timers.retry| == |host.RetryDelays()| && (Threw(host.player) || Reapplied(host.player, host.playback))
    {
      if disposed || holdLocalSeek || !host.IsNative() || !host.mediaReady {
        return;
      }
      var player := host.player;
      if player == null || !DurationIsReady(player) || !durationGated {
        return;
      }
      ApplyAndVerify(player, host.playback);
    }

    method ApplyAndVerify(player: Player, sync: SyncState)
      requires Valid() && !disposed && !holdLocalSeek
      modifies `phase, `timers, `initialSnapPending, `budgets, `stall, `durationGated, `trace,
               host`pending, host`applyFailures, host`lastAppliedAnchorMs, host`catchUpRate,
               native, scheduler`now, scheduler`queue, player`times, player`rates, player`transport
      ensures Valid() && phase == Verifying
      ensures host.pending == None ==> Converged(player, sync) && old(scheduler.now) <= trace.measuredAtMs <= scheduler.now
      ensures |timers.retry| == |host.RetryDelays()|
      ensures host.IsNative() && old(DurationIsReady(player)) && old(durationGated) && !Threw(player) ==> Reapplied(player, sync)
    {
      hide TimersAgree, DriftSec, CatchUpRate, PredictedWrites;
      ApplyRoomClock(player, sync, None);
      ScheduleVerifyBurst(host.playback.timelineAnchorMs);
    }
  }

  /** The threshold an apply with no gate, snap or pause seek ends up with: the caller's, or
      none at all in the catch-up band, or the default. */
  function EffectiveThreshold(explicit: Option<real>, drift: Option<real>, softSec: real): Num {
    if explicit.Some? then Fin(explicit.value)
    else if drift.Some? && InCatchUpBand(drift.value, softSec) then PosInf
    else Fin(DEFAULT_DRIFT_THRESHOLD_SEC)
  }

  /** The writes of an apply decided at `t` with the playhead at `h`: one playhead write to
      the clamped clock when the playhead is beyond the threshold, and the boosted rate
      first when an unforced apply finds the drift in the catch-up band. */
  predicate PredictedWrites(h: Num, sync: SyncState, explicit: Option<real>, t: real, b: Bounds, softSec: real,
                            times: seq<real>, rates: seq<real>, times': seq<real>, rates': seq<real>)
  {
    var d := DriftSec(h, sync, t, b, 0.0);
    && times' == times + SeekWrite(h, sync, t, b, EffectiveThreshold(explicit, d, softSec))
    && rates < rates'
    && (explicit.None? && d.Some? && CatchUpRate(sync.playbackRate, d.value, softSec).Some? ==>
          rates'[|rates|] == CatchUpRate(sync.playbackRate, d.value, softSec).value)
  }

  /** What a seek test at a threshold writes to a playhead at `h`: the clamped room clock, when
      the playhead is further from it than that, and nothing when it is no number. */
  function SeekWrite(h: Num, sync: SyncState, t: real, b: Bounds, threshold: Num): (writes: seq<real>)
    ensures writes == [] || writes == [TargetSec(sync, t, b, 0.0)]
    ensures threshold.Fin? ==> (writes != [] <==> h.Fin? && Abs(h.value - TargetSec(sync, t, b, 0.0)) > threshold.value)
    ensures threshold.PosInf? ==> writes == []
  {
    if NeedsSeek(h, sync, threshold, t, b, 0.0) then [TargetSec(sync, t, b, 0.0)] else []
  }

  /** The playhead writes of an apply: the one of the seek test, made a second time at most, by
      the escalation for elements that ignore a seek while paused. */
  predicate WroteClock(before: seq<real>, after: seq<real>, write: seq<real>, mayEscalate: bool) {
    after == before + write || (mayEscalate && write != [] && after == before + write + write)
  }

  lemma WrittenOnce(before: seq<real>, write: seq<real>, mayEscalate: bool)
    ensures WroteClock(before, before + write, write, mayEscalate)
  {
  }

  /** The threshold an apply starts from: none behind the duration gate, the caller's, zero for
      a snap, a re-apply or a first pause seek unless a confirmation near the room is awaited,
      none while the rate closes the gap, else 0.8 s. */
  function StartThreshold(gated: bool, explicit: Option<real>, forced: bool, awaited: bool, rateCloses: bool): Num {
    if gated then PosInf
    else if explicit.Some? then Fin(explicit.value)
    else if forced then (if awaited then PosInf else Fin(0.0))
    else if rateCloses then PosInf else Fin(0.8)
  }

  /** The write of an apply that starts from there, and of one that has planned its correction. */
  function StartedOf(h: Num, sync: SyncState, t: real, b: Bounds, nativeMode: bool, gated: bool, explicit: Option<real>,
                     forced: bool, softSec: real, hasProbe: bool): seq<real>
  {
    var drift := DriftSec(h, sync, t, b, 0.0);
    var threshold := StartThreshold(gated, explicit, forced,
                                    (nativeMode || !sync.paused) && hasProbe && drift.Some? && drift.value <= softSec,
                                    !nativeMode && !sync.paused && drift.Some? && InCatchUpBand(drift.value, softSec));
    SeekWrite(h, sync, t, b, threshold)
  }

  function PlannedOf(h: Num, sync: SyncState, t: real, b: Bounds, nativeMode: bool, gated: bool, explicit: Option<real>,
                     chosen: Option<Num>, softSec: real, hasProbe: bool): seq<real>
  {
    var plan := PlanCorrection(nativeMode, sync.paused, gated, explicit, chosen, DriftSec(h, sync, t, b, 0.0), softSec, hasProbe);
    SeekWrite(h, sync, t, b, plan.threshold)
  }

  lemma PlanStartsThere(h: Num, sync: SyncState, t: real, b: Bounds, nativeMode: bool, gated: bool, explicit: Option<real>,
                        forced: bool, chosen: Option<Num>, softSec: real, hasProbe: bool)
    requires softSec >= 0.8
    requires chosen == if gated then Some(PosInf) else if explicit.Some? then Some(Fin(explicit.value))
                       else if forced then Some(Fin(0.0)) else None
    ensures PlannedOf(h, sync, t, b, nativeMode, gated, explicit, chosen, softSec, hasProbe)
            == StartedOf(h, sync, t, b, nativeMode, gated, explicit, forced, softSec, hasProbe)
  {
    hide DriftSec, SeekWrite;
  }

  /** Rates written after the first one are not part of the prediction. */
  lemma LaterRatesPredicted(h: Num, sync: SyncState, explicit: Option<real>, t: real, b: Bounds, softSec: real,
                            times: seq<real>, rates: seq<real>, times': seq<real>, rates': seq<real>, rates'': seq<real>)
    requires PredictedWrites(h, sync, explicit, t, b, softSec, times, rates, times', rates') && rates' <= rates''
    ensures PredictedWrites(h, sync, explicit, t, b, softSec, times, rates, times', rates'')
  {
  }
}
