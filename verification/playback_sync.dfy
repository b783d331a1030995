/** Room-clock arithmetic: where the playhead should be, how far a local playhead is from
    it, how far a seek may go, and how fast a lagging player may run. */
module PlaybackSync {
  import opened Js

  const DEFAULT_DRIFT_THRESHOLD_SEC: real := 0.8
  const CATCH_UP_DRIFT_MAX_SEC: real := 3.0
  const CATCH_UP_CLEAR_DRIFT_SEC: real := 0.35
  const CATCH_UP_RATE_BOOST: real := 1.4
  const CATCH_UP_RATE_MIN_FACTOR: real := 1.05
  const CATCH_UP_RATE_MAX_FACTOR: real := 1.5
  const PLAYBACK_RATE_SCHEMA_MAX: real := 3.0
  const BUFFER_ONLY_PROXIMITY_SEC: real := 1.0
  const BUFFER_ONLY_MAX_ABS_SEC: real := 45.0
  const SEEK_CEILING_EPS_SEC: real := 0.05

  datatype SyncState = SyncState(paused: bool, playbackRate: real, timelineAnchorMs: real, serverNowMs: real)

  /** What is known about the end of the media. */
  datatype Bounds = Bounds(duration: Num, seekableEnd: Num, hint: Num, isLive: bool)

  function DriftThresholdSec(rttMs: real): real {
    Max(DEFAULT_DRIFT_THRESHOLD_SEC, (if rttMs > 0.0 then rttMs / 2000.0 else 0.0) + 0.25)
  }

  predicate InCatchUpBand(driftSec: real, minSec: real) {
    minSec < driftSec <= CATCH_UP_DRIFT_MAX_SEC
  }

  function CatchUpRate(roomRate: real, driftSec: real, minSec: real): Option<real> {
    if !InCatchUpBand(driftSec, minSec) || roomRate <= 0.0 then
      None
    else
      var boosted := roomRate * CATCH_UP_RATE_BOOST;
      var lo := roomRate * CATCH_UP_RATE_MIN_FACTOR;
      var hi := Min(roomRate * CATCH_UP_RATE_MAX_FACTOR, PLAYBACK_RATE_SCHEMA_MAX);
      Some(Min(hi, Max(lo, boosted)))
  }

  function ExpectedSec(sync: SyncState, nowMs: real): real {
    var anchorSec := Max(0.0, sync.timelineAnchorMs / 1000.0);
    var elapsedSec := if sync.paused then 0.0 else Max(0.0, (nowMs - sync.serverNowMs) / 1000.0);
    anchorSec + elapsedSec * sync.playbackRate
  }

  predicate BeyondThreshold(currentSec: real, expectedSec: real, threshold: Num, allowAheadSec: real) {
    var ahead := currentSec - expectedSec;
    if allowAheadSec > 0.0 && 0.0 <= ahead <= allowAheadSec then false
    else match threshold
      case PosInf => false
      case NaN => false
      case NegInf => true
      case Fin(t) => Abs(currentSec - expectedSec) > t
  }

  predicate LooksBufferOnly(bound: Option<real>, seekableEnd: Option<real>) {
    bound.Some? && seekableEnd.Some?
    && Abs(bound.value - seekableEnd.value) < BUFFER_ONLY_PROXIMITY_SEC
    && Min(bound.value, seekableEnd.value) < BUFFER_ONLY_MAX_ABS_SEC
  }

  function Positive(n: Num): Option<real> {
    if n.Fin? && n.value > 0.0 then Some(n.value) else None
  }

  /** A duration or hint that is positive, finite and not just the buffered window. */
  function Trusted(n: Num, seekableEnd: Num): Option<real> {
    if LooksBufferOnly(Positive(n), Positive(seekableEnd)) then None else Positive(n)
  }

  function OrZero(o: Option<real>): real {
    if o.Some? then o.value else 0.0
  }

  /** The end of the media as far as it is trusted, 0 when nothing is. */
  function TrustedEndSec(b: Bounds): real {
    Max(OrZero(Trusted(b.duration, b.seekableEnd)), OrZero(Trusted(b.hint, b.seekableEnd)))
  }

  function SeekCeilingSec(b: Bounds): Option<real> {
    var seekable := Positive(b.seekableEnd);
    var vodBound := TrustedEndSec(b);
    if vodBound > 0.0 then
      var withSeekable := if seekable.Some? then Max(vodBound, seekable.value) else vodBound;
      Some(Max(0.0, withSeekable - SEEK_CEILING_EPS_SEC))
    else if b.isLive && seekable.Some? then
      Some(Max(0.0, seekable.value - SEEK_CEILING_EPS_SEC))
    else
      None
  }

  function DriftSec(playhead: Num, sync: SyncState, nowMs: real, b: Bounds, allowAheadSec: real): Option<real> {
    if !playhead.Fin? then
      None
    else
      var expected := ExpectedSec(sync, nowMs);
      var ceiling := SeekCeilingSec(b);
      var current := playhead.value;
      if ceiling.Some? && expected > ceiling.value
         && Abs(current - ceiling.value) <= DEFAULT_DRIFT_THRESHOLD_SEC then
        Some(Abs(current - ceiling.value))
      else if allowAheadSec > 0.0 && 0.0 <= current - expected <= allowAheadSec then
        Some(0.0)
      else
        Some(Abs(current - expected))
  }

  /** Where a correction aims: the room clock, cut at the seek ceiling. */
  function TargetSec(sync: SyncState, nowMs: real, b: Bounds, leadSec: real): real {
    var ceiling := SeekCeilingSec(b);
    var wanted := ExpectedSec(sync, nowMs) + leadSec;
    if ceiling.Some? then Min(wanted, ceiling.value) else wanted
  }

  // ---------------------------------------------------------------- thresholds

  /** The soft threshold is 0.8 s up to a round trip of 1.1 s, and grows by half of every
      millisecond more. */
  lemma SoftThresholdGrows(rttMs: real)
    ensures rttMs <= 1100.0 ==> DriftThresholdSec(rttMs) == 0.8
    ensures rttMs >= 1100.0 ==> DriftThresholdSec(rttMs) == 0.8 + (rttMs - 1100.0) / 2000.0
  {
  }

  /** An allowance ahead excuses a playhead that is ahead of the clock by no more than it, and
      changes nothing else; an infinite threshold excuses every one. */
  lemma AllowanceExcusesAhead(h: real, expectedSec: real, thresholdSec: real, aheadSec: real)
    requires aheadSec >= 0.0
    ensures var excused := aheadSec > 0.0 && 0.0 <= h - expectedSec <= aheadSec;
            && (BeyondThreshold(h, expectedSec, Fin(thresholdSec), aheadSec) <==> !excused && Abs(h - expectedSec) > thresholdSec)
            && !BeyondThreshold(h, expectedSec, PosInf, aheadSec) && !BeyondThreshold(h, expectedSec, NaN, aheadSec)
  {
  }

  /** The same for the measured drift, away from the media end. */
  lemma AllowanceHidesDrift(h: real, sync: SyncState, nowMs: real, b: Bounds, aheadSec: real)
    requires aheadSec >= 0.0
    requires SeekCeilingSec(b).Some? ==> ExpectedSec(sync, nowMs) <= SeekCeilingSec(b).value || Abs(h - SeekCeilingSec(b).value) > 0.8
    ensures var gap := h - ExpectedSec(sync, nowMs);
            DriftSec(Fin(h), sync, nowMs, b, aheadSec) == Some(if aheadSec > 0.0 && 0.0 <= gap <= aheadSec then 0.0 else Abs(gap))
  {
  }

  /** A lead moves the seek target ahead of the room clock, but not past the ceiling. */
  lemma LeadMovesTheTarget(sync: SyncState, nowMs: real, b: Bounds, leadSec: real)
    ensures var target := TargetSec(sync, nowMs, b, leadSec);
            && target <= ExpectedSec(sync, nowMs) + leadSec && (SeekCeilingSec(b).Some? ==> target <= SeekCeilingSec(b).value)
            && (target == ExpectedSec(sync, nowMs) + leadSec || SeekCeilingSec(b) == Some(target))
  {
  }

  // ---------------------------------------------------------------- seek ceiling

  /** Which ends are distrusted: those that are no positive number, and those within a second of
      a seekable end of which one is under 45 s. */
  lemma DistrustedIff(x: real, window: real)
    ensures Trusted(Fin(x), Fin(window)) == None
            <==> x <= 0.0 || (window > 0.0 && Abs(x - window) < 1.0 && (x < 45.0 || window < 45.0))
    ensures Trusted(PosInf, Fin(window)) == Trusted(NaN, Fin(window)) == Trusted(NegInf, Fin(window)) == None
  {
  }

  /** Where the ceiling lies: 0.05 s before the end, which is the later of the trusted end and
      the seekable one, or the seekable one of live media; never before the start. */
  lemma CeilingIsBeforeTheEnd(b: Bounds)
    requires SeekCeilingSec(b).Some?
    ensures var end := if TrustedEndSec(b) > 0.0 && (!b.seekableEnd.Fin? || b.seekableEnd.value < TrustedEndSec(b))
                       then TrustedEndSec(b) else OrZero(Positive(b.seekableEnd));
            end > 0.0 && SeekCeilingSec(b).value == if end >= 0.05 then end - 0.05 else 0.0
  {
  }

  /** A trusted bound is never cut short by a small seekable window, and a bound that is
      only the buffered window never produces a ceiling by itself. */
  lemma CeilingRespectsTrustedBounds(b: Bounds)
    ensures forall n | n == b.duration || n == b.hint ::
              Trusted(n, b.seekableEnd).Some? ==>
                SeekCeilingSec(b).Some?
                && SeekCeilingSec(b).value >= Trusted(n, b.seekableEnd).value - SEEK_CEILING_EPS_SEC
                && (Positive(b.seekableEnd).Some? ==>
                      SeekCeilingSec(b).value >= b.seekableEnd.value - SEEK_CEILING_EPS_SEC)
    ensures SeekCeilingSec(b).Some? <==>
              Trusted(b.duration, b.seekableEnd).Some? || Trusted(b.hint, b.seekableEnd).Some?
              || (b.isLive && Positive(b.seekableEnd).Some?)
  {
    assert forall n :: Positive(n).Some? ==> Positive(n).value > 0.0;
  }

  /** How much is buffered does not move the clock. With nothing trusted about the end of media
      that is not live, the measured drift is the plain distance to the room clock; under a
      trusted end, no seekable window up to that end changes the drift or the seek target,
      whatever the playhead, the clock and the look-ahead are. */
  lemma DriftIgnoresBufferedWindow(playhead: Num, sync: SyncState, nowMs: real, b: Bounds, window: Num, aheadSec: real)
    ensures var b' := b.(seekableEnd := window);
            var trusted := TrustedEndSec(b);
            TrustedEndSec(b') == trusted
            && (if trusted == 0.0 then !b.isLive
                else OrZero(Positive(b.seekableEnd)) <= trusted && OrZero(Positive(window)) <= trusted) ==>
              && DriftSec(playhead, sync, nowMs, b', aheadSec) == DriftSec(playhead, sync, nowMs, b, aheadSec)
              && TargetSec(sync, nowMs, b', 0.0) == TargetSec(sync, nowMs, b, 0.0)
              && (trusted == 0.0 && playhead.Fin? ==>
                    && TargetSec(sync, nowMs, b', 0.0) == ExpectedSec(sync, nowMs)
                    && DriftSec(playhead, sync, nowMs, b', 0.0)
                       == Some(Abs(playhead.value - ExpectedSec(sync, nowMs))))
  {
  }

  /** Which media keep their trusted end whatever is buffered: exactly those of at least 46 s,
      the two buffer-only limits together. Anything shorter is mistaken for the buffered window
      by some seekable end. */
  lemma TrustedForEveryWindowIff(n: Num)
    ensures (forall window: Num :: Trusted(n, window).Some?)
            <==> n.Fin? && n.value >= BUFFER_ONLY_MAX_ABS_SEC + BUFFER_ONLY_PROXIMITY_SEC
  {
    if n.Fin? && 0.0 < n.value < BUFFER_ONLY_MAX_ABS_SEC + BUFFER_ONLY_PROXIMITY_SEC {
      var mistaken := if n.value < BUFFER_ONLY_MAX_ABS_SEC then n.value
                      else (n.value - BUFFER_ONLY_PROXIMITY_SEC + BUFFER_ONLY_MAX_ABS_SEC) / 2.0;
      assert Trusted(n, Fin(mistaken)) == None;
    } else if !n.Fin? || n.value <= 0.0 {
      assert Trusted(n, NaN) == None;
    }
  }

  /** So the drift of a video on demand of known duration and no hint is the same whatever part
      of it is buffered, for every playhead and every clock, exactly from 46 s on: below, some
      buffered window takes the end of the media away, and a playhead resting there while the
      room clock runs on is measured as drifting. */
  lemma BufferingNeverMattersIff(b: Bounds)
    requires Positive(b.duration).Some? && Positive(b.hint).None? && !b.isLive
    ensures (forall window: Num, h: Num, sync: SyncState, nowMs: real ::
               OrZero(Positive(window)) <= b.duration.value ==>
                 DriftSec(h, sync, nowMs, b.(seekableEnd := window), 0.0)
                 == DriftSec(h, sync, nowMs, b.(seekableEnd := NaN), 0.0))
            <==> b.duration.value >= BUFFER_ONLY_MAX_ABS_SEC + BUFFER_ONLY_PROXIMITY_SEC
  {
    var d := b.duration.value;
    if d >= BUFFER_ONLY_MAX_ABS_SEC + BUFFER_ONLY_PROXIMITY_SEC {
      TrustedForEveryWindowIff(b.duration);
      forall window: Num, h: Num, sync: SyncState, nowMs: real | OrZero(Positive(window)) <= d
        ensures DriftSec(h, sync, nowMs, b.(seekableEnd := window), 0.0)
                == DriftSec(h, sync, nowMs, b.(seekableEnd := NaN), 0.0)
      {
        assert Trusted(b.duration, window).Some?;
        DriftIgnoresBufferedWindow(h, sync, nowMs, b.(seekableEnd := window), NaN, 0.0);
      }
    } else {
      var mistaken := if d < BUFFER_ONLY_MAX_ABS_SEC then d
                      else (d - BUFFER_ONLY_PROXIMITY_SEC + BUFFER_ONLY_MAX_ABS_SEC) / 2.0;
      var end := Max(0.0, d - SEEK_CEILING_EPS_SEC);
      var past := SyncState(true, 1.0, (end + 1.0) * 1000.0, 0.0);
      assert ExpectedSec(past, 0.0) == end + 1.0;
      assert DriftSec(Fin(end), past, 0.0, b.(seekableEnd := NaN), 0.0) == Some(0.0);
      assert DriftSec(Fin(end), past, 0.0, b.(seekableEnd := Fin(mistaken)), 0.0) == Some(1.0);
    }
  }

  /** Landing exactly on the target leaves no drift, whatever the bounds are, and is never
      beyond any non-negative threshold. */
  lemma TargetHasNoDrift(sync: SyncState, nowMs: real, b: Bounds, threshold: Num)
    requires threshold == PosInf || (threshold.Fin? && threshold.value >= 0.0)
    ensures var target := TargetSec(sync, nowMs, b, 0.0);
            DriftSec(Fin(target), sync, nowMs, b, 0.0) == Some(0.0)
            && !BeyondThreshold(target, target, threshold, 0.0)
  {
  }

  /** How the threshold test against the clamped target and the measured drift relate: they
      agree exactly when the playhead has not run past the ceiling by more than the default
      threshold while the room clock itself is close. */
  lemma SeekTestAgreesWithDrift(h: real, sync: SyncState, nowMs: real, b: Bounds)
    ensures var d := DriftSec(Fin(h), sync, nowMs, b, 0.0).value;
            var target := TargetSec(sync, nowMs, b, 0.0);
            var c := SeekCeilingSec(b);
            var past := c.Some? && ExpectedSec(sync, nowMs) > c.value
                        && h > c.value + DEFAULT_DRIFT_THRESHOLD_SEC
                        && Abs(h - ExpectedSec(sync, nowMs)) <= DEFAULT_DRIFT_THRESHOLD_SEC;
            (BeyondThreshold(h, target, Fin(DEFAULT_DRIFT_THRESHOLD_SEC), 0.0)
             <==> d > DEFAULT_DRIFT_THRESHOLD_SEC || past)
  {
  }

  /** What the room clock shows: the anchor when it was set and before, the same at all times
      while paused, and while playing exactly the room rate times the time gone by. */
  lemma ClockRunsWhilePlaying(sync: SyncState, t: real, u: real)
    ensures t <= sync.serverNowMs ==> ExpectedSec(sync, t) == Max(0.0, sync.timelineAnchorMs / 1000.0)
    ensures sync.paused ==> ExpectedSec(sync, t) == ExpectedSec(sync, u)
    ensures !sync.paused && sync.serverNowMs <= t <= u ==>
              ExpectedSec(sync, u) - ExpectedSec(sync, t) == sync.playbackRate * (u - t) / 1000.0
  {
    var e1, e2 := (t - sync.serverNowMs) / 1000.0, (u - sync.serverNowMs) / 1000.0;
    assert e2 * sync.playbackRate - e1 * sync.playbackRate == (e2 - e1) * sync.playbackRate;
    assert (e2 - e1) * sync.playbackRate == sync.playbackRate * (u - t) / 1000.0;
  }

  /** The same room anchored anew at a time of its life, to what the clock shows then. */
  function Reanchored(sync: SyncState, t: real): SyncState {
    sync.(timelineAnchorMs := ExpectedSec(sync, t) * 1000.0, serverNowMs := t)
  }

  /** Anchoring anew is unobservable: every later reading is the same, however often the room
      is anchored and whether it plays or not. */
  lemma ReanchoringKeepsTheClock(sync: SyncState, t: real, u: real)
    requires sync.playbackRate >= 0.0 && sync.serverNowMs <= t <= u
    ensures ExpectedSec(Reanchored(sync, t), u) == ExpectedSec(sync, u)
  {
    var e := (t - sync.serverNowMs) / 1000.0;
    assert e * sync.playbackRate >= 0.0;
    assert ExpectedSec(sync, t) >= 0.0;
    ClockRunsWhilePlaying(sync, t, u);
    ClockRunsWhilePlaying(Reanchored(sync, t), t, u);
    assert ExpectedSec(sync, t) * 1000.0 / 1000.0 == ExpectedSec(sync, t);
    hide ExpectedSec;
  }

  /** Pausing stops the clock at what it shows, and playing on from there resumes it. */
  lemma PauseHoldsTheClock(sync: SyncState, t: real, u: real, later: real)
    requires sync.playbackRate >= 0.0 && sync.serverNowMs <= t <= u <= later && !sync.paused
    ensures var held := Reanchored(sync, t).(paused := true);
            && ExpectedSec(held, u) == ExpectedSec(sync, t)
            && ExpectedSec(Reanchored(held, u).(paused := false), later) == ExpectedSec(sync, later - (u - t))
  {
    var held := Reanchored(sync, t).(paused := true);
    var on := Reanchored(held, u).(paused := false);
    assert (t - sync.serverNowMs) / 1000.0 * sync.playbackRate >= 0.0;
    assert ExpectedSec(sync, t) >= 0.0;
    assert ExpectedSec(held, u) == ExpectedSec(sync, t);
    ClockRunsWhilePlaying(on, u, later);
    ClockRunsWhilePlaying(sync, t, later - (u - t));
    assert ExpectedSec(on, u) == ExpectedSec(sync, t);
    hide ExpectedSec;
  }

  /** The room clock is 1-Lipschitz in the clock reading, scaled by the room rate. */
  lemma ExpectedIsLipschitz(sync: SyncState, now1: real, now2: real)
    requires sync.playbackRate >= 0.0
    ensures Abs(ExpectedSec(sync, now1) - ExpectedSec(sync, now2))
            <= sync.playbackRate * Abs(now1 - now2) / 1000.0
  {
    var e1 := Max(0.0, (now1 - sync.serverNowMs) / 1000.0);
    var e2 := Max(0.0, (now2 - sync.serverNowMs) / 1000.0);
    var r := sync.playbackRate;
    var gap := Abs(now1 - now2) / 1000.0;
    assert -gap <= e1 - e2 <= gap;
    if sync.paused {
      assert r * gap >= 0.0;
      assert r * Abs(now1 - now2) / 1000.0 == r * gap;
    } else {
      assert e1 * r - e2 * r == (e1 - e2) * r;
      ScaleBound(e1 - e2, gap, r);
      assert r * Abs(now1 - now2) / 1000.0 == r * gap;
    }
  }

  lemma ExpectedGrows(sync: SyncState, t1: real, t2: real)
    requires t1 <= t2 && sync.playbackRate >= 0.0
    ensures ExpectedSec(sync, t1) <= ExpectedSec(sync, t2)
  {
    var e1 := Max(0.0, (t1 - sync.serverNowMs) / 1000.0);
    var e2 := Max(0.0, (t2 - sync.serverNowMs) / 1000.0);
    assert (e2 - e1) * sync.playbackRate >= 0.0;
  }

  lemma ScaleBound(x: real, bound: real, r: real)
    requires -bound <= x <= bound && r >= 0.0
    ensures -(bound * r) <= x * r <= bound * r
  {
    assert (bound - x) * r >= 0.0;
    assert (x + bound) * r >= 0.0;
  }
}
