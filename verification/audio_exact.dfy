/** How long the queue gets: at any sample rate up to the rounding of the changes, and exactly
    for whole-millisecond delays next to whole kilohertz, where rounding never adds up; and at
    which sample rates its capacity can be exceeded. */
module AudioExact {
  import opened Js
  import opened AudioSkew
  import opened AudioDelayGraph
  import opened AudioConservation

  /** So near a whole number of kilohertz that two seconds round to that many samples each
      millisecond. */
  predicate NearKHz(sampleRate: real, kHz: nat) {
    sampleRate > 0.0 && -0.25 <= sampleRate - 1000.0 * kHz as real < 0.25
  }

  predicate Whole(ms: real) {
    ms == ms.Floor as real
  }

  predicate WholeEvent(e: Event) {
    e.NewDelay? && e.ms.Fin? ==> Whole(e.ms.value)
  }

  predicate WholeRun(run: seq<Event>) {
    forall e | e in run :: WholeEvent(e)
  }

  /** Samples of a whole number of milliseconds: that of the nearest kilohertz, and what the
      rest of the rate rounds to. */
  lemma SamplesNear(ms: nat, kHz: nat, sampleRate: real)
    requires sampleRate > 0.0
    ensures var rest := (sampleRate - 1000.0 * kHz as real) * ms as real / 1000.0;
            MsToSamples(ms as real, sampleRate) == MaxInt(0, ms * kHz + Round(rest))
  {
    var m, k, off := ms as real, kHz as real, sampleRate - 1000.0 * kHz as real;
    var rest, x := off * m / 1000.0, m / 1000.0 * sampleRate;
    Spread(m, k, off);
    assert x == m * k + rest;
    ProductOfReals(ms, kHz);
    assert x == (ms * kHz) as real + rest;
    RoundShifts(rest, ms * kHz);
  }

  lemma Spread(m: real, k: real, off: real)
    ensures m / 1000.0 * (1000.0 * k + off) == m * k + off * m / 1000.0
  {
    assert m / 1000.0 * (1000.0 * k + off) == m / 1000.0 * (1000.0 * k) + m / 1000.0 * off;
  }

  lemma ProductOfReals(a: nat, b: nat)
    ensures a as real * b as real == (a * b) as real
  {
  }

  lemma RoundShifts(x: real, n: int)
    ensures Round(n as real + x) == n + Round(x)
  {
  }

  lemma SamplesExact(ms: nat, kHz: nat, sampleRate: real)
    requires ms <= 2000 && NearKHz(sampleRate, kHz)
    ensures MsToSamples(ms as real, sampleRate) == ms * kHz
  {
    SamplesNear(ms, kHz, sampleRate);
    SmallRest(sampleRate - 1000.0 * kHz as real, ms as real);
  }

  lemma SmallRest(off: real, m: real)
    requires -0.25 <= off < 0.25 && 0.0 <= m <= 2000.0
    ensures Round(off * m / 1000.0) == 0
  {
    var t := m / 1000.0;
    assert off * m / 1000.0 == off * t && 0.0 <= t <= 2.0;
    assert (off + 0.25) * t >= 0.0 && (0.25 - off) * t >= 0.0;
    assert -0.25 * t <= off * t <= 0.25 * t;
    if t > 0.0 {
      assert (0.25 - off) * t > 0.0;
    }
  }

  /** With whole milliseconds a change of target moves the plan by exactly its samples. */
  lemma PlanExact(p: SkewPlan, targetEarlyMs: real, kHz: nat, sampleRate: real)
    requires NearKHz(sampleRate, kHz) && OneSided(p) && Whole(p.appliedEarlyMs) && Whole(targetEarlyMs)
    requires 0.0 <= p.appliedEarlyMs <= 2000.0 && 0.0 <= targetEarlyMs <= 2000.0
    ensures var q := PlanEarlySkewChange(p, targetEarlyMs, sampleRate);
            && (q.drop - q.insert) - (p.drop - p.insert) == (targetEarlyMs.Floor - p.appliedEarlyMs.Floor) * kHz
            && q.appliedEarlyMs == targetEarlyMs && OneSided(q)
  {
    var a, b := p.appliedEarlyMs.Floor, targetEarlyMs.Floor;
    if b > a {
      SamplesExact(b - a, kHz, sampleRate);
    } else if b < a {
      SamplesExact(a - b, kHz, sampleRate);
      assert (a - b) * kHz == -((b - a) * kHz);
    }
  }

  /** The advance is exact, the silence emitted by underruns and the queue stay within two
      seconds' worth of frames, and nothing has been trimmed. */
  ghost predicate ExactInv(g: Graph, kHz: nat, sampleRate: real) {
    && Inv(g, sampleRate)
    && Whole(g.delayMs) && Whole(g.plan.appliedEarlyMs)
    && Advance(g) == g.plan.appliedEarlyMs.Floor * kHz
    && g.rec.trimmed == 0
    && g.rec.underrun <= 2000 * kHz && |g.pending| <= 2000 * kHz
  }

  lemma WholeNumber(n: int)
    ensures Whole(n as real)
  {
  }

  lemma WholeClamp(ms: Num)
    requires ms.Fin? ==> Whole(ms.value)
    ensures Whole(ClampDelayMs(ms)) && Whole(EarlyMs(ClampDelayMs(ms)))
  {
    var n := if !ms.Fin? then 0 else MinInt(2000, MaxInt(-2000, ms.value.Floor));
    assert ClampDelayMs(ms) == n as real;
    assert EarlyMs(n as real) == MaxInt(0, -n) as real;
    WholeNumber(n);
    WholeNumber(MaxInt(0, -n));
  }

  lemma RetargetExact(g: Graph, delayMs: real, active: bool, kHz: nat, sampleRate: real)
    requires NearKHz(sampleRate, kHz) && ExactInv(g, kHz, sampleRate) && Whole(delayMs) && Whole(EarlyMs(delayMs))
    requires AUDIO_DELAY_MIN_MS <= delayMs <= AUDIO_DELAY_MAX_MS
    ensures ExactInv(Retarget(g.(delayMs := delayMs, active := active), EarlyMs(delayMs), sampleRate), kHz, sampleRate)
  {
    EarlyRange(g, kHz, sampleRate);
    RetargetKeepsInv(g, delayMs, active, sampleRate);
    PlanExact(g.plan, EarlyMs(delayMs), kHz, sampleRate);
    Difference(g.plan.appliedEarlyMs.Floor, EarlyMs(delayMs).Floor, kHz);
    hide PlanEarlySkewChange, Inv, NearKHz;
  }

  /** Underruns happen only with queue and inserts exhausted, which bounds them by the skew. */
  lemma AudioExactInv(g: Graph, frames: seq<StereoFrame>, kHz: nat, sampleRate: real)
    requires kHz <= 72 && NearKHz(sampleRate, kHz) && ExactInv(g, kHz, sampleRate)
    ensures ExactInv(Audio(g, frames), kHz, sampleRate)
  {
    NothingToTrim(g);
    ProcessCounts(g, frames);
    AudioKeepsInv(g, frames, sampleRate);
    EarlyRange(g, kHz, sampleRate);
    hide Process, Trim, Inv, NearKHz, Whole;
    var t, advance := Audio(g, frames), g.plan.appliedEarlyMs.Floor * kHz;
    assert Accounted(t) && Advance(t) == advance && 0 <= advance <= 2000 * kHz;
  }

  lemma EarlyRange(g: Graph, kHz: nat, sampleRate: real)
    requires ExactInv(g, kHz, sampleRate)
    ensures 0 <= g.plan.appliedEarlyMs.Floor * kHz <= 2000 * kHz && Accounted(g) && InOrder(g)
  {
    hide Accounted, InOrder, Played;
    var a := g.plan.appliedEarlyMs.Floor;
    assert 0 <= a <= 2000;
    Scaled(a, 2000, kHz);
  }

  lemma Scaled(a: nat, b: nat, k: nat)
    requires a <= b
    ensures 0 <= a * k <= b * k && (b - a) * k == b * k - a * k
  {
  }

  lemma Difference(a: int, b: int, k: nat)
    ensures (b - a) * k == b * k - a * k
  {
  }

  lemma NothingToTrim(g: Graph)
    requires |g.pending| <= PENDING_CAPACITY_FRAMES && |g.rec.kept| == |g.rec.played| + |g.pending|
    ensures Trim(g) == g
  {
    assert g.pending[0..] == g.pending;
    assert CutKept(g.rec.kept, |g.rec.played|, 0) == g.rec.kept;
  }

  lemma StepExactInv(g: Graph, e: Event, kHz: nat, sampleRate: real)
    requires kHz <= 72 && NearKHz(sampleRate, kHz) && ExactInv(g, kHz, sampleRate) && WholeEvent(e)
    ensures ExactInv(Step(g, e, sampleRate), kHz, sampleRate)
  {
    hide Tracks, Audio, PlanEarlySkewChange;
    match e
    case NewDelay(ms) =>
      WholeClamp(ms);
      var next := ClampDelayMs(ms);
      if next != g.delayMs {
        RetargetExact(g, next, g.active || EarlyMs(next) > 0.0, kHz, sampleRate);
      }
    case Callback(frames) =>
      if g.active {
        AudioExactInv(g, frames, kHz, sampleRate);
      }
    case Microtask =>
  }

  lemma {:induction false} RunExactInv(g: Graph, run: seq<Event>, kHz: nat, sampleRate: real)
    requires kHz <= 72 && NearKHz(sampleRate, kHz) && ExactInv(g, kHz, sampleRate) && WholeRun(run)
    ensures ExactInv(Run(g, run, sampleRate), kHz, sampleRate)
    decreases |run|
  {
    if run != [] {
      assert run[0] in run;
      StepKeepsInv(g, run[0], sampleRate);
      StepExactInv(g, run[0], kHz, sampleRate);
      RunExactInv(Step(g, run[0], sampleRate), run[1..], kHz, sampleRate);
    }
  }

  lemma AttachExact(initialDelayMs: Num, kHz: nat, sampleRate: real)
    requires NearKHz(sampleRate, kHz) && (initialDelayMs.Fin? ==> Whole(initialDelayMs.value))
    ensures ExactInv(Attach(initialDelayMs, sampleRate), kHz, sampleRate)
  {
    hide Tracks;
    AttachInv(initialDelayMs, sampleRate);
    WholeClamp(initialDelayMs);
    var delay := ClampDelayMs(initialDelayMs);
    if delay < 0.0 {
      PlanExact(SkewPlan(0.0, 0, 0), EarlyMs(delay), kHz, sampleRate);
    }
  }

  /** Next to a whole kilohertz up to 72 the queue never exceeds two seconds of frames (96,000 at 48 kHz), so the
      capacity trim never fires; and the graph can leave the negative path only in a run in
      which no underrun silence was ever emitted, which is also enough once the work is done. */
  lemma QueueBounded(initialDelayMs: Num, run: seq<Event>, kHz: nat, sampleRate: real)
    requires kHz <= 72 && NearKHz(sampleRate, kHz) && WholeRun(run) && (initialDelayMs.Fin? ==> Whole(initialDelayMs.value))
    ensures var g := RunFrom(initialDelayMs, run, sampleRate);
            && |g.pending| <= 2000 * kHz <= PENDING_CAPACITY_FRAMES
            && g.rec.trimmed == 0
            && |g.pending| + g.plan.insert - g.plan.drop == g.rec.underrun - g.plan.appliedEarlyMs.Floor * kHz
            && (ShouldLeaveNegativePath(g.delayMs, g.plan, |g.pending|, g.active)
                <==> g.active && g.delayMs >= 0.0 && g.plan.drop == 0 && g.plan.insert == 0 && g.rec.underrun == 0)
  {
    AttachExact(initialDelayMs, kHz, sampleRate);
    RunExactInv(Attach(initialDelayMs, sampleRate), run, kHz, sampleRate);
    var g := RunFrom(initialDelayMs, run, sampleRate);
    if g.delayMs >= 0.0 {
      assert g.plan.appliedEarlyMs == 0.0;
      assert 0 * kHz == 0;
    }
  }

  // ---------------------------------------------------------------- any sample rate

  /** Two seconds' worth of frames and half a frame per change of target bound the silence, a
      whole frame per change the queue; nothing has been trimmed. */
  ghost predicate RateInv(g: Graph, sampleRate: real) {
    && Inv(g, sampleRate) && g.rec.trimmed == 0
    && g.rec.underrun as real <= 2.0 * sampleRate + g.rec.changes as real / 2.0
    && |g.pending| as real <= 2.0 * sampleRate + g.rec.changes as real
  }

  /** Changes of target in a run. */
  function Retargets(run: seq<Event>): nat {
    if run == [] then 0 else (if run[0].NewDelay? then 1 else 0) + Retargets(run[1..])
  }

  lemma EarlyBounds(g: Graph, sampleRate: real)
    requires sampleRate > 0.0 && NearTarget(g, sampleRate)
    ensures 0.0 <= g.plan.appliedEarlyMs / 1000.0 * sampleRate <= 2.0 * sampleRate
    ensures -(g.rec.changes as real / 2.0) <= Advance(g) as real <= 2.0 * sampleRate + g.rec.changes as real / 2.0
  {
    hide Advance;
    var e := g.plan.appliedEarlyMs / 1000.0;
    assert 0.0 <= e <= 2.0;
    UpToTwo(e, sampleRate);
    var exact, slack, advance := e * sampleRate, g.rec.changes as real / 2.0, Advance(g) as real;
    assert exact - slack <= advance <= exact + slack;
    WithSlack(exact, slack, advance, 2.0 * sampleRate);
  }

  lemma WithSlack(exact: real, slack: real, advance: real, top: real)
    requires 0.0 <= exact <= top && exact - slack <= advance <= exact + slack
    ensures -slack <= advance <= top + slack
  {
  }

  lemma UpToTwo(e: real, k: real)
    requires 0.0 <= e <= 2.0 && k > 0.0
    ensures 0.0 <= e * k <= 2.0 * k
  {
    var rest := 2.0 - e;
    assert e * k >= 0.0;
    assert rest * k >= 0.0;
    assert rest * k == 2.0 * k - e * k;
  }

  lemma AudioRateInv(g: Graph, frames: seq<StereoFrame>, sampleRate: real)
    requires sampleRate > 0.0 && RateInv(g, sampleRate)
    requires 2.0 * sampleRate + g.rec.changes as real <= PENDING_CAPACITY_FRAMES as real
    ensures RateInv(Audio(g, frames), sampleRate) && Audio(g, frames).rec.changes == g.rec.changes
  {
    NothingToTrim(g);
    ProcessCounts(g, frames);
    AudioKeepsInv(g, frames, sampleRate);
    EarlyBounds(g, sampleRate);
    var t := Audio(g, frames);
    QueueAccount(t);
    var top, slack := 2.0 * sampleRate, g.rec.changes as real / 2.0;
    hide *;
    RateBound(|t.pending|, t.rec.underrun, g.rec.underrun, t.plan.drop, t.plan.insert, Advance(g), top, slack);
    RateInvFrom(t, sampleRate, top, slack);
  }

  lemma QueueAccount(g: Graph)
    requires Accounted(g) && g.rec.trimmed == 0
    ensures |g.pending| + g.plan.insert - g.plan.drop == g.rec.underrun - Advance(g)
  {
  }

  lemma RateInvFrom(g: Graph, sampleRate: real, top: real, slack: real)
    requires Inv(g, sampleRate) && g.rec.trimmed == 0 && top == 2.0 * sampleRate && slack == g.rec.changes as real / 2.0
    requires g.rec.underrun as real <= top + slack && |g.pending| as real <= top + 2.0 * slack
    ensures RateInv(g, sampleRate)
  {
    hide Inv;
  }

  /** Silence runs under only with queue and inserts exhausted, and frames are only left to
      drop with an empty queue: so both stay below the advance. */
  lemma RateBound(queued: nat, underrun: nat, before: nat, drop: nat, insert: nat, advance: int, top: real, slack: real)
    requires queued + insert - drop == underrun - advance && -slack <= advance as real <= top + slack
    requires before as real <= top + slack && 0.0 <= top && 0.0 <= slack
    requires underrun >= before && (underrun > before ==> queued == 0 && insert == 0) && (drop > 0 ==> queued == 0)
    ensures underrun as real <= top + slack && queued as real <= top + 2.0 * slack
  {
  }

  lemma StepRateInv(g: Graph, e: Event, sampleRate: real)
    requires sampleRate > 0.0 && RateInv(g, sampleRate)
    requires 2.0 * sampleRate + g.rec.changes as real <= PENDING_CAPACITY_FRAMES as real
    ensures RateInv(Step(g, e, sampleRate), sampleRate)
    ensures Step(g, e, sampleRate).rec.changes <= g.rec.changes + if e.NewDelay? then 1 else 0
  {
    StepKeepsInv(g, e, sampleRate);
    hide Inv, Audio, PlanEarlySkewChange;
    match e
    case NewDelay(ms) =>
    case Callback(frames) =>
      if g.active {
        AudioRateInv(g, frames, sampleRate);
      }
    case Microtask =>
  }

  lemma {:induction false} RunRateInv(g: Graph, run: seq<Event>, sampleRate: real)
    requires sampleRate > 0.0 && RateInv(g, sampleRate)
    requires 2.0 * sampleRate + (g.rec.changes + Retargets(run)) as real <= PENDING_CAPACITY_FRAMES as real
    ensures RateInv(Run(g, run, sampleRate), sampleRate)
    ensures Run(g, run, sampleRate).rec.changes <= g.rec.changes + Retargets(run)
    decreases |run|
  {
    if run != [] {
      hide Step, RateInv;
      StepRateInv(g, run[0], sampleRate);
      RunRateInv(Step(g, run[0], sampleRate), run[1..], sampleRate);
    }
  }

  lemma AttachRateInv(initialDelayMs: Num, sampleRate: real)
    requires sampleRate > 0.0
    ensures RateInv(Attach(initialDelayMs, sampleRate), sampleRate) && Attach(initialDelayMs, sampleRate).rec.changes <= 1
  {
    AttachInv(initialDelayMs, sampleRate);
    hide Inv, PlanEarlySkewChange;
  }

  /** At every sample rate, whole kilohertz or not, each change of target adds at most a frame
      to the queue bound of two seconds, so the capacity trim cannot fire before that many
      changes fill the room left: 55,799 of them at 44.1 kHz. */
  lemma QueueBoundedAtAnyRate(initialDelayMs: Num, run: seq<Event>, sampleRate: real)
    requires sampleRate > 0.0
    requires 2.0 * sampleRate + (1 + Retargets(run)) as real <= PENDING_CAPACITY_FRAMES as real
    ensures var g := RunFrom(initialDelayMs, run, sampleRate);
            && g.rec.trimmed == 0
            && |g.pending| as real <= 2.0 * sampleRate + (1 + Retargets(run)) as real
            && g.rec.underrun as real <= 2.0 * sampleRate + (1 + Retargets(run)) as real / 2.0
  {
    AttachRateInv(initialDelayMs, sampleRate);
    RunRateInv(Attach(initialDelayMs, sampleRate), run, sampleRate);
  }

  // ---------------------------------------------------------------- above 72 kHz

  const BUFFER: nat := 4096

  function Callbacks(n: nat): seq<Event> {
    seq(n, i => Callback(Silences(BUFFER)))
  }

  /** The parts of a state that decide how the queue grows. */
  ghost predicate Shape(g: Graph, delayMs: real, drop: nat, insert: nat, queued: nat) {
    g.active && g.delayMs == delayMs && g.plan == SkewPlan(EarlyMs(delayMs), drop, insert) && |g.pending| == queued
  }

  lemma {:induction false} RunAppends(g: Graph, run: seq<Event>, e: Event, sampleRate: real)
    requires Inv(g, sampleRate) && sampleRate > 0.0
    ensures Run(g, run + [e], sampleRate) == Step(Run(g, run, sampleRate), e, sampleRate)
    decreases |run|
  {
    if run == [] {
      assert ([] + [e])[1..] == [];
    } else {
      StepKeepsInv(g, run[0], sampleRate);
      assert (run + [e])[1..] == run[1..] + [e];
      RunAppends(Step(g, run[0], sampleRate), run[1..], e, sampleRate);
    }
  }

  lemma {:induction false} RunConcat(g: Graph, a: seq<Event>, b: seq<Event>, sampleRate: real)
    requires Inv(g, sampleRate) && sampleRate > 0.0
    ensures Run(g, a + b, sampleRate) == Run(Run(g, a, sampleRate), b, sampleRate)
    decreases |a|
  {
    if a == [] {
      assert a + b == b;
    } else {
      StepKeepsInv(g, a[0], sampleRate);
      assert (a + b)[1..] == a[1..] + b;
      RunConcat(Step(g, a[0], sampleRate), a[1..], b, sampleRate);
    }
  }

  lemma DropStep(g: Graph, delayMs: real, drop: nat)
    requires InOrder(g) && Shape(g, delayMs, drop, 0, 0)
    ensures var h := Audio(g, Silences(BUFFER));
            Shape(h, delayMs, MaxInt(0, drop - BUFFER), 0, 0) && h.rec.trimmed == g.rec.trimmed
  {
    hide Fill, Tracks, CutKept, Positions;
  }

  lemma InsertStep(g: Graph, delayMs: real, insert: nat, queued: nat)
    requires InOrder(g) && Shape(g, delayMs, 0, insert, queued)
    ensures var h := Audio(g, Silences(BUFFER));
            h.rec.trimmed > 0 || Shape(h, delayMs, 0, MaxInt(0, insert - BUFFER), queued + MinInt(insert, BUFFER))
  {
    hide Fill, Tracks, CutKept, Positions;
  }

  lemma TrimmedStays(g: Graph, frames: seq<StereoFrame>)
    requires InOrder(g)
    ensures Audio(g, frames).rec.trimmed >= g.rec.trimmed
  {
  }

  /** Callbacks while frames are being dropped: the queue stays empty. */
  lemma {:induction false} DropPhase(g: Graph, delayMs: real, drop: nat, n: nat, sampleRate: real)
    requires Inv(g, sampleRate) && sampleRate > 0.0 && Shape(g, delayMs, drop, 0, 0)
    ensures Shape(Run(g, Callbacks(n), sampleRate), delayMs, MaxInt(0, drop - BUFFER * n), 0, 0)
    ensures Run(g, Callbacks(n), sampleRate).rec.trimmed == g.rec.trimmed
    decreases n
  {
    hide Audio, Tracks;
    if n > 0 {
      DropPhase(g, delayMs, drop, n - 1, sampleRate);
      assert Callbacks(n) == Callbacks(n - 1) + [Callback(Silences(BUFFER))];
      RunAppends(g, Callbacks(n - 1), Callback(Silences(BUFFER)), sampleRate);
      DropStep(Run(g, Callbacks(n - 1), sampleRate), delayMs, MaxInt(0, drop - BUFFER * (n - 1)));
    }
  }

  /** Callbacks while silence is being inserted: the queue grows by what is inserted, until
      it has outgrown the capacity. */
  lemma {:induction false} InsertPhase(g: Graph, delayMs: real, insert: nat, n: nat, sampleRate: real)
    requires Inv(g, sampleRate) && sampleRate > 0.0 && Shape(g, delayMs, 0, insert, 0)
    ensures var h := Run(g, Callbacks(n), sampleRate);
            h.rec.trimmed > 0 || Shape(h, delayMs, 0, MaxInt(0, insert - BUFFER * n), MinInt(insert, BUFFER * n))
    decreases n
  {
    hide Audio, Tracks;
    if n > 0 {
      InsertPhase(g, delayMs, insert, n - 1, sampleRate);
      assert Callbacks(n) == Callbacks(n - 1) + [Callback(Silences(BUFFER))];
      var h := Run(g, Callbacks(n - 1), sampleRate);
      RunAppends(g, Callbacks(n - 1), Callback(Silences(BUFFER)), sampleRate);
      TrimmedStays(h, Silences(BUFFER));
      if h.rec.trimmed == 0 {
        InsertStep(h, delayMs, MaxInt(0, insert - BUFFER * (n - 1)), MinInt(insert, BUFFER * (n - 1)));
      }
    }
  }

  /** Advance by two seconds, let it drain, go back to zero, and keep listening. */
  function Overflow(n: nat): seq<Event> {
    [NewDelay(Fin(-2000.0))] + Callbacks(n) + [NewDelay(Fin(0.0))] + Callbacks(n) + [Callback(Silences(BUFFER))]
  }

  lemma OverflowTrims(kHz: nat, rate: real)
    requires kHz > 72 && NearKHz(rate, kHz)
    ensures RunFrom(Fin(0.0), Overflow(kHz), rate).rec.trimmed > 0
  {
    hide Fill, Tracks, CutKept, Positions, PlanEarlySkewChange, Audio;
    var n := kHz;
    var frames := 2000 * kHz;
    var early, late := NewDelay(Fin(-2000.0)), NewDelay(Fin(0.0));
    AttachInv(Fin(0.0), rate);
    var g0 := Attach(Fin(0.0), rate);
    WholeNumber(0);
    WholeNumber(2000);
    PlanExact(g0.plan, 2000.0, kHz, rate);
    var g1 := Run(g0, [early], rate);
    RunAppends(g0, [], early, rate);
    assert [] + [early] == [early];
    assert Shape(g1, -2000.0, frames, 0, 0);
    DropPhase(g1, -2000.0, frames, n, rate);
    var g2 := Run(g1, Callbacks(n), rate);
    assert Shape(g2, -2000.0, 0, 0, 0);
    PlanExact(g2.plan, 0.0, kHz, rate);
    var g3 := Run(g2, [late], rate);
    RunAppends(g2, [], late, rate);
    assert [] + [late] == [late];
    assert Shape(g3, 0.0, 0, frames, 0);
    InsertPhase(g3, 0.0, frames, n, rate);
    var g4 := Run(g3, Callbacks(n), rate);
    LastCallbackTrims(g4, rate);
    RunConcat(g0, [early], Callbacks(n), rate);
    RunConcat(g0, [early] + Callbacks(n), [late], rate);
    RunConcat(g0, [early] + Callbacks(n) + [late], Callbacks(n), rate);
    RunAppends(g0, [early] + Callbacks(n) + [late] + Callbacks(n), Callback(Silences(BUFFER)), rate);
  }

  lemma LastCallbackTrims(g: Graph, sampleRate: real)
    requires Inv(g, sampleRate) && sampleRate > 0.0
    requires g.rec.trimmed > 0 || (g.active && |g.pending| > PENDING_CAPACITY_FRAMES)
    ensures Step(g, Callback(Silences(BUFFER)), sampleRate).rec.trimmed > 0
  {
    hide Fill, Tracks, CutKept, Positions;
  }

  // ---------------------------------------------------------------- rounding that adds up

  /** A plan that is `net` frames ahead. */
  function NetPlan(earlyMs: real, net: int): SkewPlan {
    SkewPlan(earlyMs, MaxInt(0, net), MaxInt(0, -net))
  }

  /** The delay, with nothing queued, and the negative path connected unless nothing is planned. */
  ghost predicate Dry(g: Graph, delayMs: real, net: int) {
    && g.delayMs == delayMs && g.plan == NetPlan(EarlyMs(delayMs), net) && g.pending == [] && g.rec.trimmed == 0
    && (g.active || (delayMs == 0.0 && net == 0))
  }

  lemma NetMoves(a: real, b: real, net: int, rate: real)
    requires a >= 0.0 && b >= 0.0 && a != b
    ensures PlanEarlySkewChange(NetPlan(a, net), b, rate)
            == NetPlan(b, if b > a then net + MsToSamples(b - a, rate) else net - MsToSamples(a - b, rate))
  {
    hide MsToSamples;
  }

  /** A change to a delay of that many milliseconds early. */
  function Early(ms: nat): Event {
    NewDelay(Fin(-(ms as real)))
  }

  /** A change of delay, as the last event of a run. */
  lemma Nudged(g: Graph, run: seq<Event>, from: nat, to: nat, net: int, rate: real)
    requires rate > 0.0 && Inv(g, rate) && from <= 2000 && to <= 2000 && from != to
    requires Dry(Run(g, run, rate), -(from as real), net)
    ensures Dry(Run(g, run + [Early(to)], rate), -(to as real),
                if to > from then net + MsToSamples((to - from) as real, rate) else net - MsToSamples((from - to) as real, rate))
  {
    RunAppends(g, run, Early(to), rate);
    NudgedStep(Run(g, run, rate), from, to, net, rate);
    hide Dry, Inv, MsToSamples, Step, Run;
  }

  lemma NudgedStep(g: Graph, from: nat, to: nat, net: int, rate: real)
    requires rate > 0.0 && Inv(g, rate) && from <= 2000 && to <= 2000 && from != to && Dry(g, -(from as real), net)
    ensures Dry(Step(g, Early(to), rate), -(to as real),
                if to > from then net + MsToSamples((to - from) as real, rate) else net - MsToSamples((from - to) as real, rate))
  {
    NetMoves(from as real, to as real, net, rate);
    hide PlanEarlySkewChange, MsToSamples, Inv;
  }

  /** Forward to `k` milliseconds, one at a time. */
  function Climb(k: nat): seq<Event> {
    if k == 0 then [] else Climb(k - 1) + [Early(k)]
  }

  /** Back from two seconds by `k` milliseconds, one at a time. */
  function Walk(k: nat): seq<Event>
    requires k <= 2000
  {
    if k == 0 then [] else Walk(k - 1) + [Early(2000 - k)]
  }

  lemma {:induction false} Climbs(g: Graph, k: nat, net: int, rate: real)
    requires rate > 0.0 && Inv(g, rate) && k <= 2000 && Dry(g, 0.0, net)
    ensures Dry(Run(g, Climb(k), rate), -(k as real), net + k * MsToSamples(1.0, rate))
    decreases k
  {
    hide Dry, MsToSamples, Inv;
    if k > 0 {
      Climbs(g, k - 1, net, rate);
      Nudged(g, Climb(k - 1), k - 1, k, net + (k - 1) * MsToSamples(1.0, rate), rate);
      OneTimesMore(k, MsToSamples(1.0, rate));
    }
  }

  lemma {:induction false} Walks(g: Graph, k: nat, net: int, rate: real)
    requires rate > 0.0 && Inv(g, rate) && k <= 2000 && Dry(g, -2000.0, net)
    ensures Dry(Run(g, Walk(k), rate), -((2000 - k) as real), net - k * MsToSamples(1.0, rate))
    decreases k
  {
    hide Dry, MsToSamples, Inv;
    if k > 0 {
      Walks(g, k - 1, net, rate);
      Nudged(g, Walk(k - 1), 2000 - k + 1, 2000 - k, net - (k - 1) * MsToSamples(1.0, rate), rate);
      OneTimesMore(k, MsToSamples(1.0, rate));
    }
  }

  lemma OneTimesMore(k: nat, n: nat)
    requires k > 0
    ensures (k - 1) * n + n == k * n
  {
  }

  /** Two seconds forward and back: one way in single milliseconds, the other at once. */
  function RoundTrip(climbing: bool): seq<Event> {
    if climbing then Climb(2000) + [Early(0)] else [Early(2000)] + Walk(2000)
  }

  /** Frames by which two seconds at once differ from two thousand single milliseconds. */
  function Residue(rate: real): int {
    MsToSamples(2000.0, rate) - 2000 * MsToSamples(1.0, rate)
  }

  lemma ClimbingTrip(g: Graph, net: int, rate: real)
    requires rate > 0.0 && Inv(g, rate) && Dry(g, 0.0, net)
    ensures Dry(Run(g, RoundTrip(true), rate), 0.0, net - Residue(rate))
  {
    hide Dry, MsToSamples, Inv, Climb, Walk, Run;
    Climbs(g, 2000, net, rate);
    Nudged(g, Climb(2000), 2000, 0, net + 2000 * MsToSamples(1.0, rate), rate);
  }

  lemma WalkingTrip(g: Graph, net: int, rate: real)
    requires rate > 0.0 && Inv(g, rate) && Dry(g, 0.0, net)
    ensures Dry(Run(g, RoundTrip(false), rate), 0.0, net + Residue(rate))
  {
    NoRun(g, rate);
    hide Dry, MsToSamples, Inv, Climb, Walk, Run;
    Nudged(g, [], 0, 2000, net, rate);
    assert [] + [Early(2000)] == [Early(2000)];
    Walks(Run(g, [Early(2000)], rate), 2000, net + MsToSamples(2000.0, rate), rate);
    RunConcat(g, [Early(2000)], Walk(2000), rate);
  }

  lemma NoRun(g: Graph, rate: real)
    requires rate > 0.0 && Inv(g, rate)
    ensures Run(g, [], rate) == g
  {
  }

  function Trips(climbing: bool, n: nat): seq<Event> {
    if n == 0 then [] else Trips(climbing, n - 1) + RoundTrip(climbing)
  }

  /** Every trip leaves as many frames more to insert. */
  lemma {:induction false} TripsInsert(g: Graph, n: nat, rate: real, inserted: nat)
    requires rate > 0.0 && Inv(g, rate) && Dry(g, 0.0, 0)
    requires inserted == if Residue(rate) > 0 then Residue(rate) else -Residue(rate)
    ensures Dry(Run(g, Trips(Residue(rate) > 0, n), rate), 0.0, 0 - n * inserted)
    decreases n
  {
    hide Dry, RoundTrip, Inv, Residue;
    if n > 0 {
      var climbing := Residue(rate) > 0;
      TripsInsert(g, n - 1, rate, inserted);
      var before := Run(g, Trips(climbing, n - 1), rate);
      if climbing {
        ClimbingTrip(before, 0 - (n - 1) * inserted, rate);
      } else {
        WalkingTrip(before, 0 - (n - 1) * inserted, rate);
      }
      RunConcat(g, Trips(climbing, n - 1), RoundTrip(climbing), rate);
      OneTimesMore(n, inserted);
    }
  }

  lemma FullQueueTrims(climbing: bool, n: nat, k: nat, frames: nat, rate: real)
    requires rate > 0.0 && frames > PENDING_CAPACITY_FRAMES && BUFFER * k >= frames
    requires Dry(RunFrom(Fin(0.0), Trips(climbing, n), rate), 0.0, 0 - frames)
    ensures RunFrom(Fin(0.0), Trips(climbing, n) + Callbacks(k) + [Callback(Silences(BUFFER))], rate).rec.trimmed > 0
  {
    AttachInv(Fin(0.0), rate);
    var g := Attach(Fin(0.0), rate);
    var h := Run(g, Trips(climbing, n), rate);
    assert Shape(h, 0.0, 0, frames, 0);
    hide Dry, Inv, Trips, Callbacks, Attach;
    InsertPhase(h, 0.0, frames, k, rate);
    RunConcat(g, Trips(climbing, n), Callbacks(k), rate);
    LastCallbackTrims(Run(h, Callbacks(k), rate), rate);
    RunAppends(g, Trips(climbing, n) + Callbacks(k), Callback(Silences(BUFFER)), rate);
  }

  /** Away from whole kilohertz two seconds do not round to two thousand milliseconds. */
  lemma ResidueAway(rate: real)
    requires rate > 0.0 && forall kHz: nat :: !NearKHz(rate, kHz)
    ensures Residue(rate) != 0
  {
    var n := Round(rate / 1000.0);
    var off := rate - 1000.0 * n as real;
    assert n >= 0 && -500.0 <= off < 500.0;
    assert !NearKHz(rate, n);
    SamplesNear(1, n, rate);
    SamplesNear(2000, n, rate);
    assert off * 1.0 / 1000.0 == off / 1000.0 && off * 2000.0 / 1000.0 == 2.0 * off;
    assert Round(off / 1000.0) == 0;
    assert Round(2.0 * off) != 0;
    assert 2000.0 * n as real + 2.0 * off > 0.0;
  }

  lemma RoundingTrims(rate: real)
    requires rate > 0.0 && forall kHz: nat :: !NearKHz(rate, kHz)
    ensures exists run :: WholeRun(run) && RunFrom(Fin(0.0), run, rate).rec.trimmed > 0
  {
    hide *;
    ResidueAway(rate);
    var climbing := Residue(rate) > 0;
    var inserted: nat := if climbing then Residue(rate) else -Residue(rate);
    var n: nat := 144_001;
    var frames: nat := n * inserted;
    TripsFromStart(n, rate, inserted);
    Scaled(1, inserted, n);
    EnoughFrames(frames);
    FullQueueTrims(climbing, n, frames, frames, rate);
    FillingIsWhole(climbing, n, frames);
  }

  lemma EnoughFrames(frames: nat)
    requires frames >= 144_001
    ensures frames > PENDING_CAPACITY_FRAMES && BUFFER * frames >= frames
  {
  }

  lemma TripsFromStart(n: nat, rate: real, inserted: nat)
    requires rate > 0.0 && inserted == if Residue(rate) > 0 then Residue(rate) else -Residue(rate)
    ensures Dry(RunFrom(Fin(0.0), Trips(Residue(rate) > 0, n), rate), 0.0, 0 - n * inserted)
  {
    hide Trips, Dry, Residue, Attach;
    AttachInv(Fin(0.0), rate);
    FreshIsDry(rate);
    TripsInsert(Attach(Fin(0.0), rate), n, rate, inserted);
  }

  lemma FillingIsWhole(climbing: bool, n: nat, k: nat)
    ensures WholeRun(Trips(climbing, n) + Callbacks(k) + [Callback(Silences(BUFFER))])
  {
    hide Trips, Callbacks;
    TripsAreWhole(climbing, n);
    NoDelays(k);
  }

  lemma FreshIsDry(rate: real)
    ensures Dry(Attach(Fin(0.0), rate), 0.0, 0)
  {
  }

  lemma NoDelays(k: nat)
    ensures WholeRun(Callbacks(k))
  {
  }

  lemma EarlyIsWhole(ms: nat)
    ensures WholeEvent(Early(ms))
  {
    WholeNumber(0 - ms);
  }

  lemma {:induction false} StepsAreWhole(k: nat)
    requires k <= 2000
    ensures WholeRun(Climb(k)) && WholeRun(Walk(k))
  {
    hide WholeEvent;
    if k > 0 {
      StepsAreWhole(k - 1);
      EarlyIsWhole(k);
      EarlyIsWhole(2000 - k);
    }
  }

  lemma {:induction false} TripsAreWhole(climbing: bool, n: nat)
    ensures WholeRun(Trips(climbing, n))
  {
    hide WholeEvent, Climb, Walk;
    if n > 0 {
      TripsAreWhole(climbing, n - 1);
      StepsAreWhole(2000);
      EarlyIsWhole(0);
      EarlyIsWhole(2000);
    }
  }

  // ---------------------------------------------------------------- exactly when

  /** The capacity trim, which would cut audio out of the queue, can fire at every sample rate
      but those within a quarter of a hertz of a whole kilohertz up to 72: elsewhere the
      rounding of enough changes fills the queue, and above two seconds of frames do. */
  lemma TrimsExactlyWhen(rate: real)
    requires rate > 0.0
    ensures (exists run :: WholeRun(run) && RunFrom(Fin(0.0), run, rate).rec.trimmed > 0)
            <==> !exists kHz: nat :: kHz <= 72 && NearKHz(rate, kHz)
  {
    WholeNumber(0);
    if kHz: nat :| NearKHz(rate, kHz) {
      NearOne(rate, kHz);
      if kHz > 72 {
        OverflowTrims(kHz, rate);
        WholeNumber(-2000);
        NoDelays(kHz);
        assert WholeRun(Overflow(kHz));
      } else {
        forall run | WholeRun(run)
          ensures RunFrom(Fin(0.0), run, rate).rec.trimmed == 0
        {
          QueueBounded(Fin(0.0), run, kHz, rate);
        }
      }
    } else {
      RoundingTrims(rate);
    }
  }

  lemma NearOne(rate: real, kHz: nat)
    requires NearKHz(rate, kHz)
    ensures forall other: nat :: NearKHz(rate, other) ==> other == kHz
  {
    forall other: nat | NearKHz(rate, other)
      ensures other == kHz
    {
      assert -0.5 < 1000.0 * other as real - 1000.0 * kHz as real < 0.5;
    }
  }

  /** At whole kilohertz that is exactly above 72, and at 44.1 kHz it is so. */
  lemma TrimsExactlyAbove72kHz(kHz: nat)
    requires kHz > 0
    ensures (exists run :: WholeRun(run) && RunFrom(Fin(0.0), run, 1000.0 * kHz as real).rec.trimmed > 0) <==> kHz > 72
    ensures exists run :: WholeRun(run) && RunFrom(Fin(0.0), run, 44100.0).rec.trimmed > 0
  {
    var rate := 1000.0 * kHz as real;
    assert NearKHz(rate, kHz);
    NearOne(rate, kHz);
    TrimsExactlyWhen(rate);
    forall n: nat
      ensures !NearKHz(44100.0, n)
    {
      assert n <= 44 || n >= 45;
    }
    TrimsExactlyWhen(44100.0);
  }
}
