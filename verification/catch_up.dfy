/** The catch-up loop seen from outside: a player that runs slower than the room, and a
    watchdog that looks at it once a second and sets its rate. */
module CatchUp {
  import opened Js
  import opened PlaybackSync

  /** The boosted rate is the room rate times 1.4, capped at the schema maximum; it exceeds
      the room rate exactly when the room runs below that maximum. */
  lemma BoostIsBounded(roomRate: real, driftSec: real, minSec: real)
    ensures CatchUpRate(roomRate, driftSec, minSec).Some?
            <==> minSec < driftSec <= CATCH_UP_DRIFT_MAX_SEC && roomRate > 0.0
    ensures CatchUpRate(roomRate, driftSec, minSec).Some? ==>
              var r := CatchUpRate(roomRate, driftSec, minSec).value;
              r == Min(1.4 * roomRate, 3.0)
              && r <= PLAYBACK_RATE_SCHEMA_MAX
              && (r > roomRate <==> roomRate < PLAYBACK_RATE_SCHEMA_MAX)
  {
  }

  /** Lag closed in one second of boosted playback. */
  function GainPerTick(roomRate: real): real {
    Min(1.4 * roomRate, 3.0) - roomRate
  }

  /** The local player: signed lag behind the room clock, and whether it runs boosted. */
  datatype Loop = Loop(lagSec: real, boosted: bool, seeks: nat)

  /** One watchdog second: the player runs at the rate it was given, then the watchdog reads
      the absolute drift and clears the boost, sets it, leaves it, or seeks. */
  function Tick(l: Loop, roomRate: real): Loop {
    var lag := if l.boosted then l.lagSec - GainPerTick(roomRate) else l.lagSec;
    Decide(l.(lagSec := lag), roomRate)
  }

  function Decide(l: Loop, roomRate: real): Loop {
    var drift := Abs(l.lagSec);
    if drift <= CATCH_UP_CLEAR_DRIFT_SEC then l.(boosted := false)
    else if drift <= DEFAULT_DRIFT_THRESHOLD_SEC then l
    else if CatchUpRate(roomRate, drift, DEFAULT_DRIFT_THRESHOLD_SEC).Some? then l.(boosted := true)
    else Loop(0.0, l.boosted, l.seeks + 1)
  }

  function Run(l: Loop, roomRate: real, ticks: nat): Loop
    decreases ticks
  {
    if ticks == 0 then l else Run(Tick(l, roomRate), roomRate, ticks - 1)
  }

  /** Caught up: at room rate again, inside the clear band. */
  predicate Closed(l: Loop) {
    !l.boosted && -CATCH_UP_CLEAR_DRIFT_SEC <= l.lagSec <= CATCH_UP_CLEAR_DRIFT_SEC
  }

  /** Not past the far side of the clear band, and no seek so far. */
  predicate OnCourse(l: Loop) {
    l.lagSec >= -CATCH_UP_CLEAR_DRIFT_SEC && l.seeks == 0
  }

  /** No tick of the run overshoots the clear band or seeks, and the run ends caught up. */
  ghost predicate ClosesSmoothly(l: Loop, roomRate: real, ticks: nat) {
    Closed(Run(l, roomRate, ticks))
    && forall k: nat | k <= ticks :: OnCourse(Run(l, roomRate, k))
  }

  lemma {:induction false} RunSplits(l: Loop, roomRate: real, k: nat)
    ensures Run(l, roomRate, k + 1) == Tick(Run(l, roomRate, k), roomRate)
    decreases k
  {
    if k == 0 {
      assert Run(l, roomRate, 1) == Run(Tick(l, roomRate), roomRate, 0);
    } else {
      RunSplits(Tick(l, roomRate), roomRate, k - 1);
    }
  }

  /** `ticks` is the first time the loop is caught up, and it gets there smoothly. */
  ghost predicate ClosesAt(l: Loop, roomRate: real, ticks: nat) {
    ClosesSmoothly(l, roomRate, ticks) && forall k: nat | k < ticks :: !Closed(Run(l, roomRate, k))
  }

  /** One tick more in front of a run that closes. */
  lemma ClosesLater(l: Loop, roomRate: real, rest: nat)
    requires ClosesAt(Tick(l, roomRate), roomRate, rest) && OnCourse(l) && !Closed(l)
    ensures ClosesAt(l, roomRate, rest + 1)
  {
    hide Tick, OnCourse, Closed;
    var next := Tick(l, roomRate);
    assert forall k: nat | k > 0 :: Run(l, roomRate, k) == Run(next, roomRate, k - 1);
    assert Run(l, roomRate, 0) == l;
  }

  /** A boosted lagging player loses the same lag every second: it is caught up after just as
      many ticks as it takes to get inside the clear band. */
  lemma {:induction false} BoostedCloses(l: Loop, roomRate: real, ticks: nat)
    requires 0.0 < roomRate < PLAYBACK_RATE_SCHEMA_MAX
    requires GainPerTick(roomRate) <= 2.0 * CATCH_UP_CLEAR_DRIFT_SEC
    requires l.boosted && l.seeks == 0 && CATCH_UP_CLEAR_DRIFT_SEC < l.lagSec <= CATCH_UP_DRIFT_MAX_SEC
    requires IsStepsTo(ticks, l.lagSec - CATCH_UP_CLEAR_DRIFT_SEC, GainPerTick(roomRate))
    ensures ClosesAt(l, roomRate, ticks)
    decreases ticks
  {
    var g := GainPerTick(roomRate);
    var next := Tick(l, roomRate);
    StepLess(ticks, l.lagSec - CATCH_UP_CLEAR_DRIFT_SEC, g);
    if next.boosted {
      BoostedCloses(next, roomRate, ticks - 1);
    } else {
      assert ClosesAt(next, roomRate, 0) by { assert Run(next, roomRate, 0) == next; }
    }
    ClosesLater(l, roomRate, ticks - 1);
  }

  /** The least number of steps that cover `x`. */
  predicate IsStepsTo(n: nat, x: real, step: real) {
    (n as real - 1.0) * step < x <= n as real * step
  }

  function StepsTo(x: real, step: real): (n: nat)
    requires x > 0.0 && step > 0.0
    ensures IsStepsTo(n, x, step)
  {
    var q := x / step;
    var n := -(-q).Floor;
    assert q > 0.0 && n as real - 1.0 < q <= n as real;
    Covers(n as real, q, x, step);
    n
  }

  lemma Scales(a: real, b: real, step: real)
    requires step > 0.0
    ensures a <= b ==> a * step <= b * step
    ensures a < b ==> a * step < b * step
  {
    var gap := b - a;
    assert gap >= 0.0 ==> gap * step >= 0.0;
    assert gap > 0.0 ==> gap * step > 0.0;
    assert gap * step == b * step - a * step;
  }

  lemma Covers(n: real, q: real, x: real, step: real)
    requires step > 0.0 && q == x / step && n - 1.0 < q <= n
    ensures (n - 1.0) * step < x <= n * step
  {
    var below := n - 1.0;
    assert q * step == x;
    Scales(below, q, step);
    Scales(q, n, step);
    assert below * step < x && x <= n * step;
  }

  lemma StepLess(n: nat, x: real, step: real)
    requires x > 0.0 && step > 0.0 && IsStepsTo(n, x, step)
    ensures if x > step then n >= 2 && IsStepsTo(n - 1, x - step, step) else n == 1
  {
    var m := n as real;
    Scales(m, 0.0, step);
    Scales(m, 1.0, step);
    Scales(1.0, m - 1.0, step);
    assert (m - 1.0) * step == m * step - step && (m - 2.0) * step == m * step - 2.0 * step;
  }

  /** Which room rates are safe: one boosted second never closes more than the width of the
      clear band. */
  lemma SafeRates(roomRate: real)
    requires 0.0 < roomRate < PLAYBACK_RATE_SCHEMA_MAX
    ensures GainPerTick(roomRate) > 0.0
    ensures GainPerTick(roomRate) <= 2.0 * CATCH_UP_CLEAR_DRIFT_SEC <==> roomRate <= 1.75 || roomRate >= 2.3
  {
  }

  predicate LaggingInBand(lagSec: real) {
    DEFAULT_DRIFT_THRESHOLD_SEC < lagSec <= CATCH_UP_DRIFT_MAX_SEC
  }

  /** Every lag in the catch-up band is closed without stepping over the target and without a
      seek exactly at room rates up to 1.75 and from 2.3 up to the schema maximum. */
  lemma CatchUpClosesExactly(roomRate: real)
    requires 0.0 < roomRate < PLAYBACK_RATE_SCHEMA_MAX
    ensures (forall lag | LaggingInBand(lag) :: exists ticks: nat :: ClosesSmoothly(Loop(lag, false, 0), roomRate, ticks))
            <==> roomRate <= 1.75 || roomRate >= 2.3
  {
    SafeRates(roomRate);
    if GainPerTick(roomRate) <= 2.0 * CATCH_UP_CLEAR_DRIFT_SEC {
      forall lag | LaggingInBand(lag)
        ensures exists ticks: nat :: ClosesSmoothly(Loop(lag, false, 0), roomRate, ticks)
      {
        ClosesFromBand(lag, roomRate);
      }
    } else {
      var lag := 1.5 * GainPerTick(roomRate);
      Overshoots(roomRate, lag);
      assert LaggingInBand(lag);
    }
  }

  /** How many watchdog seconds a lag in the band takes: one that sets the boost, and those in
      which the boost brings the lag down to the clear band. */
  function SecondsToClose(lagSec: real, roomRate: real): nat
    requires 0.0 < roomRate < PLAYBACK_RATE_SCHEMA_MAX && LaggingInBand(lagSec)
  {
    SafeRates(roomRate);
    1 + StepsTo(lagSec - CATCH_UP_CLEAR_DRIFT_SEC, GainPerTick(roomRate))
  }

  /** At a safe room rate that is the exact number: no tick before it is caught up. */
  lemma ClosesFromBand(lag: real, roomRate: real)
    requires 0.0 < roomRate < PLAYBACK_RATE_SCHEMA_MAX && LaggingInBand(lag)
    requires roomRate <= 1.75 || roomRate >= 2.3
    ensures ClosesAt(Loop(lag, false, 0), roomRate, SecondsToClose(lag, roomRate))
  {
    SafeRates(roomRate);
    var l := Loop(lag, false, 0);
    assert Tick(l, roomRate) == Loop(lag, true, 0);
    BoostedCloses(Loop(lag, true, 0), roomRate, SecondsToClose(lag, roomRate) - 1);
    ClosesLater(l, roomRate, SecondsToClose(lag, roomRate) - 1);
  }

  /** One and a half boosted seconds of lag: from there the second boosted second lands
      outside the clear band on the far side. */
  lemma Overshoots(roomRate: real, lag: real)
    requires 0.0 < roomRate < PLAYBACK_RATE_SCHEMA_MAX
    requires GainPerTick(roomRate) > 2.0 * CATCH_UP_CLEAR_DRIFT_SEC
    requires lag == 1.5 * GainPerTick(roomRate)
    ensures LaggingInBand(lag)
    ensures forall ticks: nat :: !ClosesSmoothly(Loop(lag, false, 0), roomRate, ticks)
  {
    var g := GainPerTick(roomRate);
    var l := Loop(lag, false, 0);
    var l1 := Loop(lag, true, 0);
    var l2 := Loop(lag - g, true, 0);
    assert Tick(l, roomRate) == l1 && Tick(l1, roomRate) == l2;
    assert Run(l, roomRate, 1) == Run(l1, roomRate, 0) == l1;
    assert Run(l, roomRate, 2) == Run(l1, roomRate, 1) == Run(l2, roomRate, 0) == l2;
    assert Run(l, roomRate, 3) == Run(l1, roomRate, 2) == Run(l2, roomRate, 1);
    assert Run(l2, roomRate, 1) == Run(Tick(l2, roomRate), roomRate, 0) == Tick(l2, roomRate);
    assert Tick(l2, roomRate).lagSec == lag - g - g;
    forall ticks: nat
      ensures !ClosesSmoothly(l, roomRate, ticks)
    {
      if ticks >= 3 {
        assert !OnCourse(Run(l, roomRate, 3));
      } else {
        assert ticks == 0 || ticks == 1 || ticks == 2;
        assert !Closed(Run(l, roomRate, ticks));
      }
    }
  }
}
