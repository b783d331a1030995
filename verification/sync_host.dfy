/** What surrounds the sync engine: the clock and timers it is given, and the host callbacks
    that hold the room's state. */
module SyncHost {
  import opened Js
  import opened PlaybackSync
  import opened ApplyPlaybackSync

  datatype Task = VerifyTick(anchorMs: real) | TransportTick(paused: bool)

  datatype Timeout = Timeout(task: Task, dueMs: real)

  /** The timeouts of one burst: consecutive ids, one per delay. */
  function Burst(armed: map<nat, Timeout>, start: nat, task: Task, nowMs: real, delays: seq<real>): (r: map<nat, Timeout>)
    ensures forall id :: id in r <==> id in armed || start <= id < start + |delays|
    ensures forall id | id in r :: r[id] == if start <= id < start + |delays| then Timeout(task, nowMs + delays[id - start])
                                           else armed[id]
    decreases |delays|
  {
    if delays == [] then armed
    else
      var n := |delays| - 1;
      Burst(armed, start, task, nowMs, delays[..n])[start + n := Timeout(task, nowMs + delays[n])]
  }

  function Ids(start: nat, n: nat): seq<nat> {
    seq(n, i requires 0 <= i < n => start + i)
  }

  function Without(armed: map<nat, Timeout>, ids: seq<nat>): map<nat, Timeout> {
    map id | id in armed && id !in ids :: armed[id]
  }

  /** Timeouts not yet fired or cleared, and the next id to hand out. */
  datatype Queue = Queue(armed: map<nat, Timeout>, nextId: nat)

  /** `steady` singles out the schedulers whose clock stands still during one call. */
  class Scheduler {
    const steady: bool
    var now: real
    var queue: Queue

    constructor (steady: bool, now: real)
      ensures this.steady == steady && this.now == now && queue == Queue(map[], 0)
    {
      this.steady, this.now, queue := steady, now, Queue(map[], 0);
    }

    method NowMs() returns (t: real)
      modifies `now
      ensures t == now && old(now) <= now && (steady ==> now == old(now))
    {
      if !steady {
        var later: real := *;
        now := if later > now then later else now;
      }
      t := now;
    }

    method SetTimeout(task: Task, delayMs: real) returns (id: nat)
      modifies `queue
      ensures id == old(queue.nextId)
      ensures queue == Queue(old(queue.armed)[id := Timeout(task, now + delayMs)], id + 1)
    {
      id := queue.nextId;
      queue := Queue(queue.armed[id := Timeout(task, now + delayMs)], id + 1);
    }

    method ClearTimeout(id: nat)
      modifies `queue
      ensures queue == Queue(old(queue.armed) - {id}, old(queue.nextId))
    {
      queue := queue.(armed := queue.armed - {id});
    }

    method ClearAll(ids: seq<nat>)
      modifies `queue
      ensures queue == Queue(Without(old(queue.armed), ids), old(queue.nextId))
    {
      for i := 0 to |ids|
        invariant queue == Queue(Without(old(queue.armed), ids[..i]), old(queue.nextId))
      {
        ClearTimeout(ids[i]);
        assert ids[..i + 1] == ids[..i] + [ids[i]];
      }
      assert ids[..|ids|] == ids;
    }

    method SetAll(task: Task, delays: seq<real>) returns (ids: seq<nat>)
      modifies `queue
      ensures ids == Ids(old(queue.nextId), |delays|)
      ensures queue == Queue(Burst(old(queue.armed), old(queue.nextId), task, now, delays), old(queue.nextId) + |delays|)
    {
      ids := [];
      for i := 0 to |delays|
        invariant ids == Ids(old(queue.nextId), i)
        invariant queue == Queue(Burst(old(queue.armed), old(queue.nextId), task, now, delays[..i]), old(queue.nextId) + i)
      {
        var id := SetTimeout(task, delays[i]);
        ids := ids + [id];
        assert delays[..i + 1][..i] == delays[..i];
      }
      assert delays[..|delays|] == delays;
    }
  }

  /** Per-provider overrides; absent fields fall back to the HLS defaults. */
  datatype Tuning = Tuning(retryDelays: Option<seq<real>>, pauseRetryDelays: Option<seq<real>>,
                           maxForceSeeks: Option<nat>, nativeProvider: bool)

  const ANCHOR_RETRY_DELAYS_MS: seq<real> := [200.0, 600.0, 1200.0, 2400.0, 4000.0, 6000.0]
  const MAX_FORCE_SEEKS_PER_ANCHOR: nat := 6

  class Host {
    var player: Player?
    var mediaReady: bool
    var playback: SyncState
    var pending: Option<SyncState>
    var lastAppliedAnchorMs: Option<real>
    var authorityPaused: bool
    var tuning: Option<Tuning>
    var durationHint: Num
    var catchUpRate: Option<real>
    var rttMs: real
    var applyFailures: nat

    constructor (playback: SyncState, tuning: Option<Tuning>)
      ensures this.playback == playback && this.tuning == tuning
      ensures player == null && !mediaReady && pending == None && catchUpRate == None
    {
      player, mediaReady := null, false;
      this.playback, pending, lastAppliedAnchorMs := playback, None, None;
      authorityPaused, this.tuning, durationHint := playback.paused, tuning, NaN;
      catchUpRate, rttMs, applyFailures := None, 0.0, 0;
    }

    predicate IsNative()
      reads `tuning
    {
      tuning.Some? && tuning.value.nativeProvider
    }

    function RetryDelays(): seq<real>
      reads `tuning
    {
      if tuning.Some? && tuning.value.retryDelays.Some? then tuning.value.retryDelays.value else ANCHOR_RETRY_DELAYS_MS
    }

    function PauseRetryDelays(): seq<real>
      reads `tuning
    {
      if tuning.Some? && tuning.value.pauseRetryDelays.Some? then tuning.value.pauseRetryDelays.value
      else RetryDelays()
    }

    function MaxForceSeeks(): nat
      reads `tuning
    {
      if tuning.Some? && tuning.value.maxForceSeeks.Some? then tuning.value.maxForceSeeks.value
      else MAX_FORCE_SEEKS_PER_ANCHOR
    }

    /** The drift that counts as converged, scaled by the measured round trip. */
    function SoftThreshold(): real
      reads `rttMs
    {
      DriftThresholdSec(rttMs)
    }

    function VodHint(): Num
      reads `durationHint
    {
      if durationHint.PosInf? then NaN else durationHint
    }

    function Drift(player: Player, sync: SyncState, atMs: real): Option<real>
      reads `durationHint, player`times
    {
      DriftSec(player.Playhead(), sync, atMs, player.Bounds(VodHint(), durationHint.PosInf?), 0.0)
    }

    /** Drift at `atMs` is within the soft threshold; an unmeasurable one only if allowed. */
    predicate InSync(player: Player, sync: SyncState, atMs: real, unmeasured: bool)
      reads `durationHint, `rttMs, player`times
    {
      var d := Drift(player, sync, atMs);
      if d.Some? then d.value <= SoftThreshold() else unmeasured
    }
  }

  /** Without overrides of its own a provider has the six HLS delays and six seeks; pauses are
      retried like seeks unless they have delays of their own. */
  lemma OverridesReplaceDefaults(host: Host, delays: seq<real>, pauses: seq<real>, seeks: nat)
    ensures host.tuning == None ==>
              host.RetryDelays() == host.PauseRetryDelays() == [200.0, 600.0, 1200.0, 2400.0, 4000.0, 6000.0] && host.MaxForceSeeks() == 6
    ensures host.tuning.Some? && host.tuning.value.retryDelays == Some(delays) && host.tuning.value.pauseRetryDelays == None ==>
              host.RetryDelays() == host.PauseRetryDelays() == delays
    ensures host.tuning.Some? && host.tuning.value.pauseRetryDelays == Some(pauses) ==> host.PauseRetryDelays() == pauses
    ensures host.tuning.Some? && host.tuning.value.maxForceSeeks == Some(seeks) ==> host.MaxForceSeeks() == seeks
  {
  }

  /** An infinite duration hint marks live media, whose ceiling is the seekable end; a finite one
      is an end like the player's own, and stands in for it when the player knows none. */
  lemma HintSetsTheCeiling(host: Host, player: Player)
    ensures var b := player.Bounds(host.VodHint(), host.durationHint.PosInf?);
            && (b.isLive <==> host.durationHint.PosInf?)
            && (b.isLive && player.times.duration.NaN? && player.times.seekableEnd.Fin? && player.times.seekableEnd.value >= 0.05 ==>
                  SeekCeilingSec(b) == Some(player.times.seekableEnd.value - 0.05))
            && (host.durationHint.Fin? && host.durationHint.value >= 46.0
                && player.times.duration.NaN? && player.times.seekableEnd.NaN? ==>
                  SeekCeilingSec(b) == Some(host.durationHint.value - 0.05))
  {
  }
}
