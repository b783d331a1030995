/** Writing the room clock into a local player, and the player itself: a wrapper over an
    optional media element whose reactions to writes are the environment's choice. */
module ApplyPlaybackSync {
  import opened Js
  import opened PlaybackSync

  /** Playhead of the wrapper and of the element, what is known about the end of the media,
      and every playhead write so far. */
  datatype Times = Times(wrapper: Num, el: Num, duration: Num, seekableEnd: Num, writes: seq<real>)

  datatype Rates = Rates(wrapper: real, el: real, writes: seq<real>)

  /** The paused flags, every `pause()` (true) and `play()` (false) so far, and how many of the
      latter were made unmuted. */
  datatype Transport = Transport(wrapperPaused: Option<bool>, elPaused: bool, elMuted: bool, calls: seq<bool>, audible: nat)

  /** A wrapper over an optional media element. A player obeys, ignores, echoes or garbles
      what it is told; the `obeys..` constants single out those that always do as told, and
      `neverThrows` those that take every call, with a host that does. */
  class Player {
    const hasMediaEl: bool
    const obeysSeeks: bool
    const obeysRates: bool
    const obeysTransport: bool
    const neverThrows: bool

    var times: Times
    var rates: Rates
    var transport: Transport

    constructor (hasMediaEl: bool, obeysSeeks: bool, obeysRates: bool, obeysTransport: bool, neverThrows: bool,
                 times: Times, rates: Rates, transport: Transport)
      ensures this.hasMediaEl == hasMediaEl && this.obeysSeeks == obeysSeeks
      ensures this.obeysRates == obeysRates && this.obeysTransport == obeysTransport && this.neverThrows == neverThrows
      ensures this.times == times && this.rates == rates && this.transport == transport
    {
      this.hasMediaEl, this.obeysSeeks := hasMediaEl, obeysSeeks;
      this.obeysRates, this.obeysTransport := obeysRates, obeysTransport;
      this.neverThrows := neverThrows;
      this.times, this.rates, this.transport := times, rates, transport;
    }

    /** The playhead a viewer sees: the element's time when it is a number. */
    function Playhead(): Num
      reads `times
    {
      if hasMediaEl && times.el.Fin? then times.el else times.wrapper
    }

    function Bounds(hint: Num, isLive: bool): Bounds
      reads `times
    {
      PlaybackSync.Bounds(times.duration, times.seekableEnd, hint, isLive)
    }

    /** The element's flag alone when there is one, else the wrapper's. */
    predicate IsPlaying()
      reads `transport
    {
      if hasMediaEl then !transport.elPaused else transport.wrapperPaused != Some(true)
    }

    predicate RunsAt(rate: real)
      reads `rates
    {
      rates.wrapper == rate && (hasMediaEl ==> rates.el == rate)
    }

    method WriteRate(value: real)
      modifies `rates
      ensures rates.writes == old(rates.writes) + [value]
      ensures obeysRates ==> RunsAt(value)
    {
      var wrapper: real, el: real := *, *;
      if obeysRates {
        wrapper, el := value, value;
      }
      rates := Rates(wrapper, el, rates.writes + [value]);
    }

    method WriteTime(value: real)
      modifies `times
      ensures times.writes == old(times.writes) + [value]
      ensures times.duration == old(times.duration) && times.seekableEnd == old(times.seekableEnd)
      ensures obeysSeeks ==> times.wrapper == Fin(value) && times.el == Fin(value)
    {
      var wrapper: Num, el: Num := *, *;
      if obeysSeeks {
        wrapper, el := Fin(value), Fin(value);
      }
      times := times.(wrapper := wrapper, el := el, writes := times.writes + [value]);
    }

    /** `pause()` or `play()` on the wrapper or on the element. */
    method Call(pause: bool)
      modifies `transport
      ensures transport.calls == old(transport.calls) + [pause] && transport.elMuted == old(transport.elMuted)
      ensures transport.audible == old(transport.audible) + if pause || transport.elMuted then 0 else 1
      ensures obeysTransport ==> transport.wrapperPaused == Some(pause) && transport.elPaused == pause
    {
      var wrapper: Option<bool>, el: bool := *, *;
      if obeysTransport {
        wrapper, el := Some(pause), pause;
      }
      transport := transport.(wrapperPaused := wrapper, elPaused := el, calls := transport.calls + [pause],
                                audible := transport.audible + if pause || transport.elMuted then 0 else 1);
    }
  }

  /** Wrapper close to the reference while the element is still far from it. */
  predicate IsWrapperMediaEcho(media: Num, wrapper: Num, reference: Num, thresholdSec: real) {
    media.Fin? && wrapper.Fin? && reference.Fin?
    && Abs(media.value - reference.value) > thresholdSec
    && Abs(wrapper.value - reference.value) <= thresholdSec
  }

  /** The seek test would move the element and is content with the wrapper; without three numbers
      there is no echo. */
  lemma EchoIff(media: Num, wrapper: Num, reference: Num, thresholdSec: real)
    ensures media.Fin? && wrapper.Fin? && reference.Fin? ==>
              (IsWrapperMediaEcho(media, wrapper, reference, thresholdSec)
               <==> BeyondThreshold(media.value, reference.value, Fin(thresholdSec), 0.0)
                    && !BeyondThreshold(wrapper.value, reference.value, Fin(thresholdSec), 0.0))
    ensures !media.Fin? || !wrapper.Fin? || !reference.Fin? ==> !IsWrapperMediaEcho(media, wrapper, reference, thresholdSec)
  {
  }

  /** The wrapper cannot hide an element: the seek test, the drift and the play state are about the
      element when there is one with a time, so an echo is seeked like any other distance. */
  lemma TheElementDecides(player: Player, sync: SyncState, nowMs: real, b: Bounds)
    ensures player.hasMediaEl && player.times.el.Fin? ==>
              (NeedsSeek(player.Playhead(), sync, Fin(0.8), nowMs, b, 0.0)
               <==> Abs(player.times.el.value - TargetSec(sync, nowMs, b, 0.0)) > 0.8)
    ensures player.hasMediaEl && IsWrapperMediaEcho(player.times.el, player.times.wrapper, Fin(TargetSec(sync, nowMs, b, 0.0)), 0.8) ==>
              NeedsSeek(player.Playhead(), sync, Fin(0.8), nowMs, b, 0.0)
    ensures !player.hasMediaEl || !player.times.el.Fin? ==>
              (NeedsSeek(player.Playhead(), sync, Fin(0.8), nowMs, b, 0.0)
               <==> player.times.wrapper.Fin? && Abs(player.times.wrapper.value - TargetSec(sync, nowMs, b, 0.0)) > 0.8)
    ensures player.hasMediaEl ==> player.IsPlaying() == !player.transport.elPaused
    ensures !player.hasMediaEl ==> (player.IsPlaying() <==> player.transport.wrapperPaused != Some(true))
  {
    hide TargetSec;
  }

  datatype ClockResult = ClockResult(seekAttempted: bool, driftSec: Option<real>, playheadBefore: Option<real>, targetSec: real)

  /** The seek decision: beyond the threshold from the clamped room clock, lead excluded. */
  predicate NeedsSeek(playhead: Num, sync: SyncState, threshold: Num, nowMs: real, b: Bounds, allowAheadSec: real) {
    playhead.Fin? && BeyondThreshold(playhead.value, TargetSec(sync, nowMs, b, 0.0), threshold, allowAheadSec)
  }

  /** Rate first, then at most one playhead write, to the clamped target. */
  method ApplyClock(player: Player, sync: SyncState, threshold: Num, nowMs: real, hint: Num, isLive: bool,
                    effectiveRate: real, seekLeadSec: real, allowAheadSec: real)
    returns (r: ClockResult)
    modifies player`rates, player`times
    ensures player.rates.writes == old(player.rates.writes) + [effectiveRate]
    ensures player.obeysRates ==> player.RunsAt(effectiveRate)
    ensures r.seekAttempted
            <==> NeedsSeek(old(player.Playhead()), sync, threshold, nowMs, old(player.Bounds(hint, isLive)), Max(0.0, allowAheadSec))
    ensures r.targetSec == TargetSec(sync, nowMs, old(player.Bounds(hint, isLive)), Max(0.0, seekLeadSec))
    ensures player.times.writes == old(player.times.writes) + if r.seekAttempted then [r.targetSec] else []
    ensures !r.seekAttempted ==> player.times == old(player.times)
    ensures player.Bounds(hint, isLive) == old(player.Bounds(hint, isLive))
    ensures r.seekAttempted && player.obeysSeeks ==> player.Playhead() == Fin(r.targetSec)
    ensures r.playheadBefore == Finite(old(player.Playhead()))
    ensures r.driftSec == DriftSec(player.Playhead(), sync, nowMs, player.Bounds(hint, isLive), Max(0.0, allowAheadSec))
  {
    var lead := if seekLeadSec > 0.0 then seekLeadSec else 0.0;
    var allow := if allowAheadSec > 0.0 then allowAheadSec else 0.0;
    player.WriteRate(effectiveRate);
    var b := player.Bounds(hint, isLive);
    var expected := ExpectedSec(sync, nowMs);
    var ceiling := SeekCeilingSec(b);
    var authority := if ceiling.Some? then Min(expected, ceiling.value) else expected;
    var writeTarget := if ceiling.Some? then Min(expected + lead, ceiling.value) else expected + lead;
    var before := player.Playhead();
    var attempted := false;
    if before.Fin? && BeyondThreshold(before.value, authority, threshold, allow) {
      player.WriteTime(writeTarget);
      attempted := true;
    }
    r := ClockResult(attempted, DriftSec(player.Playhead(), sync, nowMs, b, allow), Finite(before), writeTarget);
  }

  /** An obedient player is converged after one apply: whatever the bounds, a seek leaves no
      drift, no seek leaves the drift it had, and applying again writes no playhead. */
  method ApplyTwice(player: Player, sync: SyncState, threshold: Num, nowMs: real, hint: Num, isLive: bool, rate: real)
    returns (first: ClockResult, second: ClockResult)
    requires player.obeysSeeks
    requires threshold == PosInf || (threshold.Fin? && threshold.value >= 0.0)
    modifies player
    ensures first.seekAttempted ==> first.driftSec == Some(0.0)
    ensures !first.seekAttempted ==>
              first.driftSec == old(DriftSec(player.Playhead(), sync, nowMs, player.Bounds(hint, isLive), 0.0))
    ensures !second.seekAttempted && second.driftSec == first.driftSec
    ensures player.times.writes == old(player.times.writes) + if first.seekAttempted then [first.targetSec] else []
  {
    TargetHasNoDrift(sync, nowMs, player.Bounds(hint, isLive), threshold);
    first := ApplyClock(player, sync, threshold, nowMs, hint, isLive, rate, 0.0, 0.0);
    second := ApplyClock(player, sync, threshold, nowMs, hint, isLive, rate, 0.0, 0.0);
  }

  /** Imperative play or pause. A pause is always issued, a play only against a paused
      player; the element gets its own call when there is one. */
  method NudgeTransport(player: Player, paused: bool)
    modifies player`transport
    ensures !paused && old(player.IsPlaying()) ==> player.transport == old(player.transport)
    ensures paused || !old(player.IsPlaying()) ==>
              old(player.transport.calls) + [paused] <= player.transport.calls
    ensures paused ==> player.transport.calls == old(player.transport.calls) + if player.hasMediaEl then [true, true] else [true]
    ensures !paused && !old(player.IsPlaying()) ==>
              || player.transport.calls == old(player.transport.calls) + [false]
              || (player.hasMediaEl && !player.obeysTransport && player.transport.calls == old(player.transport.calls) + [false, false])
    ensures !paused && !old(player.IsPlaying()) && player.hasMediaEl && player.transport.elPaused ==>
              player.transport.calls == old(player.transport.calls) + [false, false]
    ensures player.obeysTransport ==> player.IsPlaying() == !paused
    ensures player.transport.elMuted == old(player.transport.elMuted)
  {
    if paused {
      player.Call(true);
      if player.hasMediaEl {
        player.Call(true);
      }
    } else if !player.IsPlaying() {
      player.Call(false);
      if player.hasMediaEl && player.transport.elPaused {
        player.Call(false);
      }
    }
  }

  /** Muted play, rewrite, pause, for elements that ignore a seek while paused; the mute flag
      is back where it was. */
  method EscalateSeekWhilePaused(player: Player, targetSec: real)
    modifies player`times, player`transport
    ensures player.transport.elMuted == old(player.transport.elMuted) && player.transport.audible == old(player.transport.audible)
    ensures !player.hasMediaEl ==> player.times == old(player.times) && player.transport == old(player.transport)
    ensures player.hasMediaEl ==> player.times.writes == old(player.times.writes) + [targetSec]
                                  && player.transport.calls == old(player.transport.calls) + [false, true, true]
    ensures player.times.duration == old(player.times.duration) && player.times.seekableEnd == old(player.times.seekableEnd)
    ensures player.hasMediaEl && player.obeysSeeks ==> player.Playhead() == Fin(targetSec)
    ensures player.hasMediaEl && player.obeysTransport ==> !player.IsPlaying()
  {
    if !player.hasMediaEl {
      return;
    }
    var wasMuted := player.transport.elMuted;
    player.transport := player.transport.(elMuted := true);
    player.Call(false);
    player.WriteTime(targetSec);
    player.Call(true);
    player.Call(true);
    player.transport := player.transport.(elMuted := wasMuted);
  }
}
