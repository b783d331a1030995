/** The engine's watchdog driving an obedient lagging player is exactly the catch-up loop of
    module `CatchUp`. */
module CatchUpEngine {
  import opened Js
  import opened PlaybackSync
  import opened ApplyPlaybackSync
  import opened SyncHost
  import opened PlaybackEngine
  import CatchUp

  /** A playing HTML5 room at the default threshold, a running engine with nothing to confirm,
      and an obedient player whose wrapper and element agree. */
  ghost predicate Rolling(engine: Engine, player: Player, sync: SyncState)
    reads engine, engine.host, engine.scheduler, engine.native, player
  {
    var host := engine.host;
    && engine.Valid() && !engine.Blocked() && host.player == player
    && engine.Coasting(player, sync) && player.obeysRates
    && host.playback == sync && engine.WatchedState() == sync && host.SoftThreshold() == DEFAULT_DRIFT_THRESHOLD_SEC
    && 0.25 <= sync.playbackRate < PLAYBACK_RATE_SCHEMA_MAX
    && sync.serverNowMs <= engine.scheduler.now
    && player.times.el.Fin? && player.times.wrapper == player.times.el
    && (engine.stall.sample.Some? ==> engine.stall.sample.value.mediaSec <= player.times.el.value)
    && (host.catchUpRate == None || host.catchUpRate == Some(Min(1.4 * sync.playbackRate, 3.0)))
    && player.RunsAt(if host.catchUpRate.Some? then host.catchUpRate.value else sync.playbackRate)
  }

  /** How far the player is behind the room clock. */
  function LagSec(engine: Engine, player: Player, sync: SyncState): real
    reads engine.scheduler, player
    requires player.times.el.Fin?
  {
    ExpectedSec(sync, engine.scheduler.now) - player.times.el.value
  }

  /** The trusted end of the media, if any, is not reached before `untilMs`. */
  ghost predicate AwayFromEnd(engine: Engine, player: Player, sync: SyncState, untilMs: real)
    reads engine.host, player
  {
    var c := SeekCeilingSec(engine.SyncBounds(player));
    c.None? || ExpectedSec(sync, untilMs) <= c.value
  }

  ghost function Loop(engine: Engine, player: Player, sync: SyncState): CatchUp.Loop
    reads engine.host, engine.scheduler, player
    requires player.times.el.Fin?
  {
    CatchUp.Loop(LagSec(engine, player, sync), engine.host.catchUpRate.Some?, 0)
  }

  /** A second of playback at the rate the player was given. */
  method PlayOneSecond(engine: Engine, player: Player, sync: SyncState)
    requires Rolling(engine, player, sync)
    modifies engine.scheduler`now, player`times
    ensures Rolling(engine, player, sync)
    ensures engine.scheduler.now == old(engine.scheduler.now) + 1000.0
    ensures player.times.writes == old(player.times.writes)
    ensures engine.SyncBounds(player) == old(engine.SyncBounds(player))
    ensures engine.stall.sample.Some? ==> engine.stall.sample.value.mediaSec + 0.25 <= player.times.el.value
    ensures LagSec(engine, player, sync) == old(LagSec(engine, player, sync))
              - if engine.host.catchUpRate.Some? then CatchUp.GainPerTick(sync.playbackRate) else 0.0
  {
    engine.scheduler.now := engine.scheduler.now + 1000.0;
    var at := Fin(player.times.el.value + player.rates.wrapper);
    player.times := player.times.(wrapper := at, el := at);
    assert Max(0.0, (engine.scheduler.now - sync.serverNowMs) / 1000.0)
        == Max(0.0, (engine.scheduler.now - 1000.0 - sync.serverNowMs) / 1000.0) + 1.0;
  }

  /** Ticking the watchdog once a second does to the player what the loop says, second by
      second, and never writes the playhead, for as long as the loop does not seek. */
  method WatchdogFollowsLoop(engine: Engine, player: Player, sync: SyncState, seconds: nat)
    requires Rolling(engine, player, sync)
    requires AwayFromEnd(engine, player, sync, engine.scheduler.now + 1000.0 * seconds as real)
    requires forall k: nat | k <= seconds :: CatchUp.Run(Loop(engine, player, sync), sync.playbackRate, k).seeks == 0
    modifies engine, engine.host, engine.scheduler, engine.native, player
    ensures Rolling(engine, player, sync)
    ensures Loop(engine, player, sync) == CatchUp.Run(old(Loop(engine, player, sync)), sync.playbackRate, seconds)
    ensures player.times.writes == old(player.times.writes)
    ensures engine.scheduler.now == old(engine.scheduler.now) + 1000.0 * seconds as real
  {
    ghost var start := Loop(engine, player, sync);
    ghost var startMs := engine.scheduler.now;
    ghost var rate := sync.playbackRate;
    var done := 0;
    while done < seconds
      invariant 0 <= done <= seconds
      invariant Rolling(engine, player, sync)
      invariant engine.SyncBounds(player) == old(engine.SyncBounds(player))
      invariant Loop(engine, player, sync) == CatchUp.Run(start, rate, done)
      invariant player.times.writes == old(player.times.writes)
      invariant engine.scheduler.now == startMs + 1000.0 * done as real
    {
      CatchUp.RunSplits(start, rate, done);
      assert CatchUp.Run(start, rate, done + 1).seeks == 0;
      WatchOneSecond(engine, player, sync, startMs + 1000.0 * seconds as real);
      done := done + 1;
    }
  }

  /** A player lagging in the catch-up band, at a room rate that is safe for the boost, is
      back inside the clear band at the room rate after `CatchUp.SecondsToClose` watchdog
      seconds, and its playhead is never written. */
  method LaggingPlayerCatchesUp(engine: Engine, player: Player, sync: SyncState) returns (seconds: nat)
    requires Rolling(engine, player, sync) && engine.host.catchUpRate == None
    requires CatchUp.LaggingInBand(LagSec(engine, player, sync))
    requires sync.playbackRate <= 1.75 || sync.playbackRate >= 2.3
    requires AwayFromEnd(engine, player, sync, engine.scheduler.now
                         + 1000.0 * CatchUp.SecondsToClose(LagSec(engine, player, sync), sync.playbackRate) as real)
    modifies engine, engine.host, engine.scheduler, engine.native, player
    ensures engine.Valid() && player.times.writes == old(player.times.writes)
    ensures seconds == CatchUp.SecondsToClose(old(LagSec(engine, player, sync)), sync.playbackRate)
    ensures engine.scheduler.now == old(engine.scheduler.now) + 1000.0 * seconds as real
    ensures engine.host.catchUpRate == None && player.RunsAt(sync.playbackRate)
    ensures player.times.el.Fin? && Abs(LagSec(engine, player, sync)) <= CATCH_UP_CLEAR_DRIFT_SEC
  {
    seconds := CatchUp.SecondsToClose(LagSec(engine, player, sync), sync.playbackRate);
    CatchUp.ClosesFromBand(LagSec(engine, player, sync), sync.playbackRate);
    WatchdogFollowsLoop(engine, player, sync, seconds);
  }

  method WatchOneSecond(engine: Engine, player: Player, sync: SyncState, ghost untilMs: real)
    requires Rolling(engine, player, sync)
    requires engine.scheduler.now + 1000.0 <= untilMs && AwayFromEnd(engine, player, sync, untilMs)
    requires CatchUp.Tick(Loop(engine, player, sync), sync.playbackRate).seeks == 0
    modifies engine, engine.host, engine.scheduler, engine.native, player
    ensures Rolling(engine, player, sync)
    ensures Loop(engine, player, sync) == CatchUp.Tick(old(Loop(engine, player, sync)), sync.playbackRate)
    ensures player.times.writes == old(player.times.writes)
    ensures engine.SyncBounds(player) == old(engine.SyncBounds(player))
    ensures engine.scheduler.now == old(engine.scheduler.now) + 1000.0
  {
    PlayOneSecond(engine, player, sync);
    ExpectedGrows(sync, engine.scheduler.now, untilMs);
    TickRolling(engine, player, sync);
  }

  /** The watchdog's own part of that second. */
  method TickRolling(engine: Engine, player: Player, sync: SyncState)
    requires Rolling(engine, player, sync) && AwayFromEnd(engine, player, sync, engine.scheduler.now)
    requires engine.stall.sample.Some? ==> engine.stall.sample.value.mediaSec + 0.25 <= player.times.el.value
    requires CatchUp.Decide(Loop(engine, player, sync), sync.playbackRate).seeks == 0
    modifies engine, engine.host, engine.scheduler, engine.native, player
    ensures Rolling(engine, player, sync)
    ensures Loop(engine, player, sync) == CatchUp.Decide(old(Loop(engine, player, sync)), sync.playbackRate)
    ensures player.times == old(player.times) && engine.scheduler.now == old(engine.scheduler.now)
    ensures engine.SyncBounds(player) == old(engine.SyncBounds(player))
  {
    hide Engine.TimersOk, Engine.BudgetsOk, StallPaced;
    engine.RunWatchdogTick();
  }
}
