/** The client's estimate of the server clock: a half-round-trip sample of the offset (the
    on-wire idea of section 8 of RFC 5905) smoothed by a moving average with an outlier gate,
    and what it means for two peers that follow the same room clock. */
module ServerClock {
  import opened Js
  import opened PlaybackSync

  const OUTLIER_MS: real := 10000.0

  datatype State = State(offsetMs: real, hasSample: bool, lastRttMs: real)

  const Unsynced := State(0.0, false, 0.0)

  function ObserveRtt(s: State, rtt: Num): State {
    if !rtt.Fin? || rtt.value < 0.0 then s
    else if s.lastRttMs <= 0.0 then s.(lastRttMs := rtt.value)
    else s.(lastRttMs := s.lastRttMs * 0.7 + rtt.value * 0.3)
  }

  function HalfRtt(rttMs: real): real {
    if rttMs > 0.0 then rttMs / 2.0 else 0.0
  }

  /** What a stamp says the offset is. `rtt` is `NaN` when the caller gives none. */
  function SampleMs(s: State, serverNowMs: real, clientNowMs: real, rtt: Num): real {
    serverNowMs + HalfRtt(if rtt.Fin? && rtt.value > 0.0 then rtt.value else s.lastRttMs) - clientNowMs
  }

  predicate Rejects(s: State, sampleMs: real) {
    s.hasSample && Abs(sampleMs - s.offsetMs) > OUTLIER_MS
  }

  function ObserveServerNow(s: State, serverNow: Num, clientNowMs: real, rtt: Num): State {
    if !serverNow.Fin? then s
    else
      var sample := SampleMs(s, serverNow.value, clientNowMs, rtt);
      var t := if rtt.Fin? && rtt.value > 0.0 then ObserveRtt(s, rtt) else s;
      if !s.hasSample then t.(offsetMs := sample, hasSample := true)
      else if Rejects(s, sample) then t
      else t.(offsetMs := s.offsetMs * 0.8 + sample * 0.2)
  }

  /** The module variables behind the estimate. */
  class Clock {
    var serverOffsetMs: real
    var hasSample: bool
    var lastRttMs: real

    ghost function View(): State
      reads this
    {
      State(serverOffsetMs, hasSample, lastRttMs)
    }

    constructor ()
      ensures View() == Unsynced
    {
      serverOffsetMs, hasSample, lastRttMs := 0.0, false, 0.0;
    }

    method SetOffset(offset: Num)
      modifies this
      ensures View() == old(View()).(hasSample := true, offsetMs := if offset.Fin? then offset.value else 0.0)
    {
      serverOffsetMs := if offset.Fin? then offset.value else 0.0;
      hasSample := true;
    }

    method NoteRtt(rtt: Num) returns (blended: real)
      modifies this`lastRttMs
      ensures View() == ObserveRtt(old(View()), rtt) && blended == lastRttMs
    {
      if !rtt.Fin? || rtt.value < 0.0 {
        return lastRttMs;
      }
      if lastRttMs <= 0.0 {
        lastRttMs := rtt.value;
      } else {
        lastRttMs := lastRttMs * 0.7 + rtt.value * 0.3;
      }
      return lastRttMs;
    }

    method NoteServerNow(serverNow: Num, clientNowMs: real, rtt: Num) returns (offset: real)
      modifies this
      ensures View() == ObserveServerNow(old(View()), serverNow, clientNowMs, rtt) && offset == serverOffsetMs
    {
      if !serverNow.Fin? {
        return serverOffsetMs;
      }
      var own := rtt.Fin? && rtt.value > 0.0;
      var effectiveRtt := if own then rtt.value else lastRttMs;
      if own {
        var _ := NoteRtt(rtt);
      }
      var sample := serverNow.value + HalfRtt(effectiveRtt) - clientNowMs;
      if !hasSample {
        serverOffsetMs := sample;
        hasSample := true;
      } else if Abs(sample - serverOffsetMs) > OUTLIER_MS {
        return serverOffsetMs;
      } else {
        serverOffsetMs := serverOffsetMs * 0.8 + sample * 0.2;
      }
      return serverOffsetMs;
    }
  }

  // ---------------------------------------------------------------- the round trip

  function ObserveRtts(s: State, rtts: seq<Num>): State
    decreases |rtts|
  {
    if rtts == [] then s else ObserveRtts(ObserveRtt(s, rtts[0]), rtts[1..])
  }

  /** `0.7` to the power of `n`. */
  function Memory(n: nat): (m: real)
    ensures 0.0 < m <= 1.0
  {
    if n == 0 then 1.0 else 0.7 * Memory(n - 1)
  }

  /** What the blended round trip remembers: nothing before the first reading, which it takes as
      it is; of a wrong start seven tenths with every steady reading after it. */
  lemma {:induction false} RttForgets(s: State, rtt: real, rtts: seq<Num>)
    requires rtt > 0.0 && s.lastRttMs >= 0.0 && forall r | r in rtts :: r == Fin(rtt)
    ensures var t := ObserveRtts(s, rtts);
            && t == s.(lastRttMs := t.lastRttMs)
            && (s.lastRttMs > 0.0 ==> t.lastRttMs - rtt == Memory(|rtts|) * (s.lastRttMs - rtt))
            && (s.lastRttMs == 0.0 && rtts != [] ==> t.lastRttMs == rtt)
    decreases |rtts|
  {
    if rtts != [] {
      assert rtts[0] in rtts && forall r | r in rtts[1..] :: r in rtts;
      var n := ObserveRtt(s, rtts[0]);
      RttForgets(n, rtt, rtts[1..]);
      if s.lastRttMs > 0.0 {
        assert n.lastRttMs - rtt == 0.7 * (s.lastRttMs - rtt);
        Faster(Memory(|rtts| - 1), s.lastRttMs - rtt);
      } else {
        assert Memory(|rtts| - 1) * 0.0 == 0.0;
      }
    }
  }

  lemma Faster(m: real, error: real)
    ensures m * (0.7 * error) == 0.7 * m * error
  {
  }

  /** It never leaves the range of the readings, whatever they are; those that are negative or
      no numbers are passed over. */
  lemma {:induction false} RttStaysInRange(s: State, rtts: seq<Num>, low: real, high: real)
    requires 0.0 < low <= s.lastRttMs <= high
    requires forall r | r in rtts && r.Fin? && r.value >= 0.0 :: low <= r.value <= high
    ensures low <= ObserveRtts(s, rtts).lastRttMs <= high
    decreases |rtts|
  {
    if rtts != [] {
      assert rtts[0] in rtts;
      RttStaysInRange(ObserveRtt(s, rtts[0]), rtts[1..], low, high);
    }
  }

  /** A round trip of zero or less counts as none. */
  lemma NoRttIsBorrowed(s: State, serverNow: Num, clientNowMs: real, rtt: Num)
    requires !rtt.Fin? || rtt.value <= 0.0
    ensures ObserveServerNow(s, serverNow, clientNowMs, rtt) == ObserveServerNow(s, serverNow, clientNowMs, NaN)
    ensures ObserveServerNow(s, serverNow, clientNowMs, rtt).lastRttMs == s.lastRttMs
  {
  }

  /** A stamp with a round trip of its own blends it in, whether or not its offset is accepted. */
  lemma OwnRttIsBlended(s: State, serverNowMs: real, clientNowMs: real, rtt: real)
    requires rtt > 0.0
    ensures ObserveServerNow(s, Fin(serverNowMs), clientNowMs, Fin(rtt)).lastRttMs == ObserveRtt(s, Fin(rtt)).lastRttMs
    ensures !s.hasSample ==>
              ObserveServerNow(s, Fin(serverNowMs), clientNowMs, Fin(rtt)).offsetMs == serverNowMs + rtt / 2.0 - clientNowMs
  {
  }

  // ---------------------------------------------------------------- honest stamps

  /** A stamp written by the server when its clock showed `serverNowMs`, read when the client
      clock shows `clientNowMs`; `rtt` is the round trip measured with it, if any. */
  datatype Stamp = Stamp(serverNowMs: real, clientNowMs: real, rtt: Num)

  /** Time the stamp spent on its way, when the server clock is `theta` ahead of the client's. */
  function DelayMs(m: Stamp, theta: real): real {
    m.clientNowMs + theta - m.serverNowMs
  }

  /** The one-way delay is part of a round trip of at most `limit`, measured or not. */
  predicate Honest(m: Stamp, theta: real, limit: real) {
    && 0.0 <= DelayMs(m, theta) <= limit
    && (m.rtt.Fin? && m.rtt.value > 0.0 ==> DelayMs(m, theta) <= m.rtt.value <= limit)
  }

  predicate CarriesRtt(m: Stamp) {
    m.rtt.Fin? && m.rtt.value > 0.0
  }

  /** Every stamp is honest and carries its own round trip. */
  predicate HonestRun(ms: seq<Stamp>, theta: real, limit: real) {
    forall m | m in ms :: Honest(m, theta, limit) && CarriesRtt(m)
  }

  function Observe(s: State, m: Stamp): State {
    ObserveServerNow(s, Fin(m.serverNowMs), m.clientNowMs, m.rtt)
  }

  function ObserveAll(s: State, ms: seq<Stamp>): State
    decreases |ms|
  {
    if ms == [] then s else ObserveAll(Observe(s, ms[0]), ms[1..])
  }

  /** The offset is unknown or within the given errors of the truth. */
  predicate Within(s: State, theta: real, below: real, above: real) {
    s.hasSample ==> theta - below <= s.offsetMs <= theta + above
  }

  predicate NoneRejected(s: State, ms: seq<Stamp>)
    decreases |ms|
  {
    ms == [] || (!Rejects(s, SampleMs(s, ms[0].serverNowMs, ms[0].clientNowMs, ms[0].rtt)) && NoneRejected(Observe(s, ms[0]), ms[1..]))
  }

  /** Every stamp moves a known offset by at most `step`. */
  predicate MovesAtMost(s: State, ms: seq<Stamp>, step: real)
    decreases |ms|
  {
    ms == [] || ((s.hasSample ==> Abs(Observe(s, ms[0]).offsetMs - s.offsetMs) <= step) && MovesAtMost(Observe(s, ms[0]), ms[1..], step))
  }

  /** When every stamp carries its own round trip of at most `limit`, itself at most ten
      seconds: the offset stays within half of it for ever, no stamp is rejected and none
      moves a known offset by more than a fifth of it (two seconds at most). */
  lemma {:induction false} OffsetStaysWithinHalfRtt(s: State, ms: seq<Stamp>, theta: real, limit: real)
    requires 0.0 <= limit <= OUTLIER_MS && Within(s, theta, limit / 2.0, limit / 2.0)
    requires HonestRun(ms, theta, limit)
    ensures Within(ObserveAll(s, ms), theta, limit / 2.0, limit / 2.0)
    ensures ms != [] ==> ObserveAll(s, ms).hasSample
    ensures NoneRejected(s, ms) && MovesAtMost(s, ms, limit / 5.0)
    decreases |ms|
  {
    if ms != [] {
      assert ms[0] in ms;
      OffsetStaysWithinHalfRtt(Observe(s, ms[0]), ms[1..], theta, limit);
      StaysSampled(Observe(s, ms[0]), ms[1..]);
    }
  }

  lemma {:induction false} StaysSampled(s: State, ms: seq<Stamp>)
    requires s.hasSample
    ensures ObserveAll(s, ms).hasSample
    decreases |ms|
  {
    if ms != [] {
      StaysSampled(Observe(s, ms[0]), ms[1..]);
    }
  }

  /** Stamps without a round trip of their own borrow the blended one, and the bound below the
      truth doubles: the offset may be a whole round trip late, never more than half early. */
  lemma {:induction false} BorrowedRttDoublesTheError(s: State, ms: seq<Stamp>, theta: real, limit: real)
    requires 0.0 <= limit && limit * 1.5 <= OUTLIER_MS && 0.0 <= s.lastRttMs <= limit
    requires Within(s, theta, limit, limit / 2.0)
    requires forall m | m in ms :: Honest(m, theta, limit)
    ensures Within(ObserveAll(s, ms), theta, limit, limit / 2.0)
    ensures NoneRejected(s, ms) && MovesAtMost(s, ms, limit * 0.3)
    decreases |ms|
  {
    if ms != [] {
      assert ms[0] in ms;
      BorrowedRttDoublesTheError(Observe(s, ms[0]), ms[1..], theta, limit);
    }
  }

  /** Both ends are reached: a first stamp that borrows no round trip is late by its whole
      delay, and one that borrows a full round trip without delay is early by half of it. */
  lemma BorrowedRttErrorIsReached(theta: real, limit: real)
    requires limit > 0.0
    ensures var late := Stamp(theta - limit, 0.0, NaN);
            Honest(late, theta, limit) && Observe(Unsynced, late).offsetMs == theta - limit
    ensures var early := Stamp(theta, 0.0, NaN);
            Honest(early, theta, limit) && Observe(Unsynced.(lastRttMs := limit), early).offsetMs == theta + limit / 2.0
  {
  }

  // ---------------------------------------------------------------- bad seeds

  /** `excess` after losing a fifth of itself `n` times. */
  function Faded(excess: real, n: nat): (left: real)
    requires excess >= 0.0
    ensures 0.0 <= left <= excess
    decreases n
  {
    if n == 0 then excess else Faded(excess * 0.8, n - 1)
  }

  /** `0.8` to the power of `n`. */
  function FourFifths(n: nat): (m: real)
    ensures 0.0 < m <= 1.0
  {
    if n == 0 then 1.0 else 0.8 * FourFifths(n - 1)
  }

  lemma {:induction false} FadedIs(excess: real, n: nat)
    requires excess >= 0.0
    ensures Faded(excess, n) == FourFifths(n) * excess
    decreases n
  {
    if n > 0 {
      FadedIs(excess * 0.8, n - 1);
      assert FourFifths(n - 1) * (excess * 0.8) == FourFifths(n) * excess;
    }
  }

  /** A seed that is wrong by `excess` more than half a round trip loses a fifth of the excess
      with every stamp, as long as the gate still lets honest stamps through. */
  lemma {:induction false} BadSeedIsForgotten(s: State, ms: seq<Stamp>, theta: real, limit: real, excess: real)
    requires 0.0 <= limit && 0.0 <= excess && excess + limit <= OUTLIER_MS && s.hasSample
    requires Within(s, theta, limit / 2.0 + excess, limit / 2.0 + excess)
    requires HonestRun(ms, theta, limit)
    ensures NoneRejected(s, ms)
    ensures var left := Faded(excess, |ms|);
            Within(ObserveAll(s, ms), theta, limit / 2.0 + left, limit / 2.0 + left)
    decreases |ms|
  {
    hide Observe, Rejects, SampleMs, Honest;
    if ms != [] {
      assert ms[0] in ms;
      StampPullsIn(s, ms[0], theta, limit, excess);
      BadSeedIsForgotten(Observe(s, ms[0]), ms[1..], theta, limit, excess * 0.8);
    }
  }

  lemma StampPullsIn(s: State, m: Stamp, theta: real, limit: real, excess: real)
    requires 0.0 <= limit && 0.0 <= excess && excess + limit <= OUTLIER_MS && s.hasSample
    requires Within(s, theta, limit / 2.0 + excess, limit / 2.0 + excess)
    requires Honest(m, theta, limit) && CarriesRtt(m)
    ensures !Rejects(s, SampleMs(s, m.serverNowMs, m.clientNowMs, m.rtt)) && Observe(s, m).hasSample
    ensures Within(Observe(s, m), theta, limit / 2.0 + excess * 0.8, limit / 2.0 + excess * 0.8)
  {
  }

  lemma {:induction false} FarSeedStays(s: State, ms: seq<Stamp>, theta: real, limit: real)
    requires s.hasSample && 0.0 <= limit && Abs(s.offsetMs - theta) > OUTLIER_MS + limit / 2.0
    requires HonestRun(ms, theta, limit)
    ensures ObserveAll(s, ms).offsetMs == s.offsetMs
    decreases |ms|
  {
    if ms != [] {
      assert ms[0] in ms;
      FarSeedStays(Observe(s, ms[0]), ms[1..], theta, limit);
    }
  }

  /** The honest stamp over a full round trip whose sample is `x` off the truth. */
  function StampOff(theta: real, limit: real, x: real): Stamp {
    Stamp(theta - (limit / 2.0 - x), 0.0, Fin(limit))
  }

  lemma OneStamp(s: State, theta: real, limit: real, x: real)
    requires s.hasSample && limit > 0.0 && -limit / 2.0 <= x <= limit / 2.0
    ensures var m := StampOff(theta, limit, x);
            && HonestRun([m], theta, limit) && SampleMs(s, m.serverNowMs, m.clientNowMs, m.rtt) == theta + x
            && (Abs(theta + x - s.offsetMs) <= OUTLIER_MS ==>
                  ObserveAll(s, [m]).offsetMs == s.offsetMs * 0.8 + (theta + x) * 0.2)
            && (NoneRejected(s, [m]) <==> Abs(theta + x - s.offsetMs) <= OUTLIER_MS)
  {
    var m := StampOff(theta, limit, x);
    assert [m][1..] == [];
    assert ObserveAll(s, [m]) == ObserveAll(Observe(s, m), []) == Observe(s, m);
  }

  /** An error of an honest sample that the gate lets through and that differs from `error`. */
  function Reaching(error: real, limit: real): (x: real)
    requires limit > 0.0 && Abs(error) <= OUTLIER_MS + limit / 2.0
    ensures -limit / 2.0 <= x <= limit / 2.0 && x != error && Abs(x - error) <= OUTLIER_MS
  {
    if error > limit / 2.0 then limit / 2.0
    else if error > -limit / 2.0 then Max(-limit / 2.0, error - 1.0)
    else if error == -limit / 2.0 then Min(limit / 2.0, error + 1.0)
    else -limit / 2.0
  }

  /** A seed is beyond correction, every honest stamp taken for an outlier, exactly when it is
      off by more than the gate and half a round trip. Nearer than that an honest stamp that
      errs towards the seed passes the gate and moves the offset. */
  lemma NeverCorrectedIff(s: State, theta: real, limit: real)
    requires s.hasSample && limit > 0.0
    ensures (forall ms | HonestRun(ms, theta, limit) :: ObserveAll(s, ms).offsetMs == s.offsetMs)
            <==> Abs(s.offsetMs - theta) > OUTLIER_MS + limit / 2.0
  {
    var error := s.offsetMs - theta;
    if Abs(error) > OUTLIER_MS + limit / 2.0 {
      forall ms | HonestRun(ms, theta, limit)
        ensures ObserveAll(s, ms).offsetMs == s.offsetMs
      {
        FarSeedStays(s, ms, theta, limit);
      }
    } else {
      var x := Reaching(error, limit);
      OneStamp(s, theta, limit, x);
      hide ObserveAll, HonestRun;
      assert ObserveAll(s, [StampOff(theta, limit, x)]).offsetMs == s.offsetMs + (x - error) * 0.2;
    }
  }

  /** A seed is sure to be corrected exactly when it is off by at most the gate less half a
      round trip: then no honest stamp is rejected and every one takes a fifth of the excess,
      otherwise an honest stamp that errs away from the seed is. In between it depends on the
      stamps. */
  lemma AlwaysCorrectedIff(s: State, theta: real, limit: real)
    requires s.hasSample && 0.0 < limit <= OUTLIER_MS
    ensures (forall ms | HonestRun(ms, theta, limit) :: NoneRejected(s, ms))
            <==> Abs(s.offsetMs - theta) <= OUTLIER_MS - limit / 2.0
    ensures Abs(s.offsetMs - theta) <= OUTLIER_MS - limit / 2.0 ==>
              var excess := Max(0.0, Abs(s.offsetMs - theta) - limit / 2.0);
              forall ms | HonestRun(ms, theta, limit) ::
                Abs(ObserveAll(s, ms).offsetMs - theta) <= limit / 2.0 + Faded(excess, |ms|)
  {
    hide ObserveAll, NoneRejected, HonestRun, Faded;
    var error := s.offsetMs - theta;
    if Abs(error) <= OUTLIER_MS - limit / 2.0 {
      forall ms | HonestRun(ms, theta, limit)
        ensures NoneRejected(s, ms)
        ensures Abs(ObserveAll(s, ms).offsetMs - theta) <= limit / 2.0 + Faded(Max(0.0, Abs(error) - limit / 2.0), |ms|)
      {
        NearSeedIsForgotten(s, ms, theta, limit);
      }
    } else {
      var x := if error > 0.0 then -limit / 2.0 else limit / 2.0;
      OneStamp(s, theta, limit, x);
      assert !NoneRejected(s, [StampOff(theta, limit, x)]);
    }
  }

  lemma NearSeedIsForgotten(s: State, ms: seq<Stamp>, theta: real, limit: real)
    requires s.hasSample && 0.0 < limit <= OUTLIER_MS && HonestRun(ms, theta, limit)
    requires Abs(s.offsetMs - theta) <= OUTLIER_MS - limit / 2.0
    ensures NoneRejected(s, ms)
    ensures Abs(ObserveAll(s, ms).offsetMs - theta) <= limit / 2.0 + Faded(Max(0.0, Abs(s.offsetMs - theta) - limit / 2.0), |ms|)
  {
    var excess := Max(0.0, Abs(s.offsetMs - theta) - limit / 2.0);
    hide ObserveAll, NoneRejected, HonestRun, Faded;
    BadSeedIsForgotten(s, ms, theta, limit, excess);
    StaysSampled(s, ms);
  }

  // ---------------------------------------------------------------- two peers

  /** A follower of the room clock: its estimate, the truth about it, and its player. */
  datatype Peer = Peer(clock: State, theta: real, playhead: real, bounds: Bounds)

  /** The client clock shows `serverMs - theta` when the server clock shows `serverMs`. */
  function EstimateMs(p: Peer, serverMs: real): real {
    serverMs - p.theta + p.clock.offsetMs
  }

  function PeerDrift(p: Peer, sync: SyncState, serverMs: real): real {
    DriftSec(Fin(p.playhead), sync, EstimateMs(p, serverMs), p.bounds, 0.0).value
  }

  /** The drift is measured against the end of the media, not against the clock. */
  predicate AtEnd(p: Peer, sync: SyncState, serverMs: real) {
    var c := SeekCeilingSec(p.bounds);
    c.Some? && ExpectedSec(sync, EstimateMs(p, serverMs)) > c.value && Abs(p.playhead - c.value) <= DEFAULT_DRIFT_THRESHOLD_SEC
  }

  lemma PeerNearTheClock(p: Peer, sync: SyncState, serverMs: real)
    ensures var reference := if AtEnd(p, sync, serverMs) then SeekCeilingSec(p.bounds).value else ExpectedSec(sync, EstimateMs(p, serverMs));
            PeerDrift(p, sync, serverMs) == Abs(p.playhead - reference)
  {
  }

  /** Seconds of media that pass in `ms` milliseconds at a playback rate. */
  function Travelled(rate: real, ms: real): real {
    rate * ms / 1000.0
  }

  lemma EstimateError(p: Peer, ms: seq<Stamp>, limit: real, serverMs: real)
    requires 0.0 <= limit <= OUTLIER_MS && ms != [] && p.clock == ObserveAll(Unsynced, ms)
    requires HonestRun(ms, p.theta, limit)
    ensures Abs(EstimateMs(p, serverMs) - serverMs) <= limit / 2.0
  {
    OffsetStaysWithinHalfRtt(Unsynced, ms, p.theta, limit);
    hide ObserveAll, Honest, NoneRejected, MovesAtMost;
  }

  lemma PeersApart(p1: Peer, p2: Peer, sync: SyncState, serverMs: real, t1: real, t2: real, gap: real)
    requires PeerDrift(p1, sync, serverMs) <= t1 && PeerDrift(p2, sync, serverMs) <= t2
    requires Abs(ExpectedSec(sync, EstimateMs(p1, serverMs)) - ExpectedSec(sync, EstimateMs(p2, serverMs))) <= gap
    ensures !AtEnd(p1, sync, serverMs) && !AtEnd(p2, sync, serverMs) ==> Abs(p1.playhead - p2.playhead) <= t1 + t2 + gap
    ensures AtEnd(p1, sync, serverMs) && AtEnd(p2, sync, serverMs) && SeekCeilingSec(p1.bounds) == SeekCeilingSec(p2.bounds) ==>
              Abs(p1.playhead - p2.playhead) <= t1 + t2
  {
    PeerNearTheClock(p1, sync, serverMs);
    PeerNearTheClock(p2, sync, serverMs);
    hide DriftSec, SeekCeilingSec, ExpectedSec, AtEnd, PeerDrift, EstimateMs;
  }

  lemma ReadingsAgree(sync: SyncState, now1: real, now2: real, gap: real)
    requires sync.playbackRate >= 0.0 && Abs(now1 - now2) <= gap
    ensures Abs(ExpectedSec(sync, now1) - ExpectedSec(sync, now2)) <= Travelled(sync.playbackRate, gap)
  {
    hide ExpectedSec;
    ExpectedIsLipschitz(sync, now1, now2);
    var apart := Abs(now1 - now2);
    assert sync.playbackRate * (gap - apart) >= 0.0;
    assert sync.playbackRate * gap == sync.playbackRate * apart + sync.playbackRate * (gap - apart);
  }

  /** Two peers whose offsets come from honest stamps and whose drifts are within `t1` and `t2`
      are at most `t1 + t2` plus the rate times both half round trips apart, unless one sits at
      the end of its media and the other does not; at a common end only the drifts count. */
  lemma PeerSkewBound(p1: Peer, p2: Peer, ms1: seq<Stamp>, ms2: seq<Stamp>, limit1: real, limit2: real,
                      sync: SyncState, serverMs: real, t1: real, t2: real)
    requires 0.0 <= limit1 <= OUTLIER_MS && 0.0 <= limit2 <= OUTLIER_MS && sync.playbackRate >= 0.0
    requires ms1 != [] && p1.clock == ObserveAll(Unsynced, ms1) && HonestRun(ms1, p1.theta, limit1)
    requires ms2 != [] && p2.clock == ObserveAll(Unsynced, ms2) && HonestRun(ms2, p2.theta, limit2)
    requires PeerDrift(p1, sync, serverMs) <= t1 && PeerDrift(p2, sync, serverMs) <= t2
    ensures !AtEnd(p1, sync, serverMs) && !AtEnd(p2, sync, serverMs) ==>
              Abs(p1.playhead - p2.playhead) <= t1 + t2 + Travelled(sync.playbackRate, (limit1 + limit2) / 2.0)
    ensures AtEnd(p1, sync, serverMs) && AtEnd(p2, sync, serverMs) && SeekCeilingSec(p1.bounds) == SeekCeilingSec(p2.bounds) ==>
              Abs(p1.playhead - p2.playhead) <= t1 + t2
  {
    var gap := (limit1 + limit2) / 2.0;
    EstimateError(p1, ms1, limit1, serverMs);
    EstimateError(p2, ms2, limit2, serverMs);
    hide ObserveAll, Honest, CarriesRtt, EstimateMs, PeerDrift, AtEnd, ExpectedSec, SeekCeilingSec, Travelled;
    ReadingsAgree(sync, EstimateMs(p1, serverMs), EstimateMs(p2, serverMs), gap);
    PeersApart(p1, p2, sync, serverMs, t1, t2, Travelled(sync.playbackRate, gap));
  }
}
