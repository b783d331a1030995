/** The tracker that decides when an iframe provider has really followed a seek or a pause.
    `TrackerState` and the step functions specify it; the class holds the source's
    variables and is proved to take exactly those steps. */
module NativeSync {
  import opened Js

  const MAX_VERIFY_FAILURES: nat := 6
  const MIN_CONFIRM_MS: real := 100.0
  const MOVE_TOWARD_EPSILON_SEC: real := 0.25
  const STALE_EPSILON_SEC: real := 0.05
  const QUIESCE_EPSILON_SEC: real := 0.35
  const MIN_SAMPLE_GAP_MS: real := 150.0
  const PAUSE_MIN_SAMPLE_GAP_MS: real := 1500.0
  const QUIESCENT_SAMPLES: nat := 2

  predicate DurationReady(playerDuration: Num, hint: Num) {
    (playerDuration.PosInf? || (playerDuration.Fin? && playerDuration.value > 0.0))
    || (hint.PosInf? || (hint.Fin? && hint.value > 0.0))
  }

  /** Closer to the target than before by at least the epsilon; unknown times never are. */
  predicate MovedToward(from: Num, current: Num, target: Num) {
    from.Fin? && current.Fin? && target.Fin?
    && Abs(from.value - target.value) - Abs(current.value - target.value) >= MOVE_TOWARD_EPSILON_SEC
  }

  /** `Math.abs(a - b) >= eps`: false when the difference is not a number, true when it is
      infinite. */
  predicate ApartBy(a: Num, b: Num, eps: real) {
    if a.Fin? && b.Fin? then Abs(a.value - b.value) >= eps
    else !a.NaN? && !b.NaN? && a != b
  }

  predicate Within(a: Num, b: Num, eps: real) {
    a.Fin? && b.Fin? && Abs(a.value - b.value) < eps
  }

  datatype SeekProbe = SeekProbe(anchorMs: real, from: Num, target: Num, writtenAtMs: real,
                                 lastSample: Num, lastSampleAtMs: real, lastNearRoom: bool)

  datatype Verdict = NoProbe | Pending | Confirmed | GaveUp

  datatype PauseSample = PauseSample(sec: real, atMs: real)

  datatype TrackerState = TrackerState(
    probe: Option<SeekProbe>, seekFailures: nat,
    pauseSample: Option<PauseSample>, stableSamples: nat, pauseFailures: nat, pauseSettled: bool,
    pauseSeekKey: Option<(real, real)>)

  const Fresh: TrackerState := TrackerState(None, 0, None, 0, 0, false, None)

  datatype SeekReading = SeekReading(anchorMs: real, current: Num, drift: Option<real>, thresholdSec: real,
                                     roomPaused: bool, nowMs: real)

  function ResetPauseSamples(s: TrackerState): TrackerState {
    s.(pauseSample := None, stableSamples := 0, pauseFailures := 0, pauseSettled := false)
  }

  function NoteSeek(s: TrackerState, anchorMs: real, from: Num, target: Num, nowMs: real): TrackerState {
    var cleared := ResetPauseSamples(s);
    if s.probe.Some? && s.probe.value.anchorMs == anchorMs then
      cleared.(probe := Some(s.probe.value.(target := target, writtenAtMs := nowMs, lastNearRoom := false)))
    else
      cleared.(probe := Some(SeekProbe(anchorMs, from, target, nowMs, from, nowMs, false)), seekFailures := 0)
  }

  function Drop(s: TrackerState): TrackerState {
    s.(probe := None, seekFailures := 0)
  }

  /** One more failure: the sixth in a row releases the probe. */
  function Fail(s: TrackerState): (TrackerState, Verdict) {
    if s.seekFailures + 1 >= MAX_VERIFY_FAILURES then (Drop(s), GaveUp)
    else (s.(seekFailures := s.seekFailures + 1), Pending)
  }

  predicate NearRoom(r: SeekReading) {
    r.drift.Some? && r.drift.value <= r.thresholdSec
  }

  function EvaluateSeek(s: TrackerState, r: SeekReading): (TrackerState, Verdict) {
    if s.probe.None? then (s, NoProbe)
    else if s.probe.value.anchorMs != r.anchorMs then (Drop(s), NoProbe)
    else
      var p := s.probe.value;
      var sampled := s.(probe := Some(p.(lastSample := r.current, lastSampleAtMs := r.nowMs)));
      if !NearRoom(r) then Fail(sampled)
      else if r.nowMs - p.writtenAtMs < MIN_CONFIRM_MS then (s, Pending)
      else if !r.roomPaused then
        var near := s.(probe := Some(p.(lastSample := r.current, lastSampleAtMs := r.nowMs, lastNearRoom := true)));
        var gapOk := r.nowMs - p.lastSampleAtMs >= MIN_SAMPLE_GAP_MS;
        var advanced := ApartBy(r.current, p.lastSample, STALE_EPSILON_SEC);
        if p.lastNearRoom && advanced then (Drop(s), Confirmed)
        else if p.lastNearRoom && gapOk then Fail(near)
        else (near, Pending)
      else if !MovedToward(p.from, r.current, p.target)
              && r.nowMs - p.lastSampleAtMs >= MIN_SAMPLE_GAP_MS
              && Within(r.current, p.lastSample, STALE_EPSILON_SEC) then
        Fail(sampled)
      else
        (Drop(s), Confirmed)
  }

  datatype PauseReading = PauseReading(current: Num, wrapperPaused: Option<bool>, nowMs: real)

  datatype PauseVerdict = PauseVerdict(quiescent: bool, sampled: bool)

  function SamplePause(s: TrackerState, r: PauseReading): (TrackerState, PauseVerdict) {
    if !r.current.Fin? then (s, PauseVerdict(false, false))
    else if s.pauseSample.None? then
      (s.(pauseSample := Some(PauseSample(r.current.value, r.nowMs)), stableSamples := 0), PauseVerdict(false, true))
    else if r.nowMs - s.pauseSample.value.atMs < PAUSE_MIN_SAMPLE_GAP_MS then
      (s, PauseVerdict(s.pauseSettled, false))
    else
      var moved := Abs(r.current.value - s.pauseSample.value.sec) > QUIESCE_EPSILON_SEC;
      var next := s.(pauseSample := Some(PauseSample(r.current.value, r.nowMs)));
      if moved || r.wrapperPaused == Some(false) then
        var gaveUp := s.pauseFailures + 1 >= MAX_VERIFY_FAILURES * 2;
        (next.(stableSamples := 0, pauseFailures := s.pauseFailures + 1, pauseSettled := gaveUp), PauseVerdict(gaveUp, true))
      else
        // One stable sample after the baseline is enough: QUIESCENT_SAMPLES counts both.
        (next.(stableSamples := s.stableSamples + 1, pauseFailures := 0, pauseSettled := true), PauseVerdict(true, true))
  }

  class NativeSyncTracker {
    var probe: Option<SeekProbe>
    var seekFailures: nat
    var pauseSample: Option<PauseSample>
    var stableSamples: nat
    var pauseFailures: nat
    var pauseSettled: bool
    var pauseSeekKey: Option<(real, real)>

    ghost function State(): TrackerState
      reads this
    {
      TrackerState(probe, seekFailures, pauseSample, stableSamples, pauseFailures, pauseSettled, pauseSeekKey)
    }

    /** A live probe has failed fewer than six times; without a probe nothing is counted. */
    ghost predicate Valid()
      reads this
    {
      Bounded(State())
    }

    constructor ()
      ensures State() == Fresh && Valid()
    {
      probe, seekFailures := None, 0;
      pauseSample, stableSamples, pauseFailures, pauseSettled := None, 0, 0, false;
      pauseSeekKey := None;
    }

    method Reset()
      modifies this
      ensures State() == Fresh && Valid()
    {
      probe := None;
      seekFailures := 0;
      pauseSeekKey := None;
      ResetPause();
    }

    method ResetPause()
      modifies this
      ensures State() == ResetPauseSamples(old(State()))
    {
      pauseSample := None;
      stableSamples := 0;
      pauseFailures := 0;
      pauseSettled := false;
    }

    method NoteSeekWrite(anchorMs: real, from: Num, target: Num, nowMs: real)
      requires Valid()
      modifies this
      ensures State() == NoteSeek(old(State()), anchorMs, from, target, nowMs) && Valid()
    {
      ResetPause();
      if probe.Some? && probe.value.anchorMs == anchorMs {
        probe := Some(probe.value.(target := target, writtenAtMs := nowMs, lastNearRoom := false));
        return;
      }
      probe := Some(SeekProbe(anchorMs, from, target, nowMs, from, nowMs, false));
      seekFailures := 0;
    }

    method RecordFailure() returns (v: Verdict)
      requires probe.Some?
      modifies this
      ensures (State(), v) == Fail(old(State()))
    {
      seekFailures := seekFailures + 1;
      if seekFailures >= MAX_VERIFY_FAILURES {
        probe := None;
        seekFailures := 0;
        return GaveUp;
      }
      return Pending;
    }

    method Evaluate(r: SeekReading) returns (v: Verdict)
      requires Valid()
      modifies this
      ensures (State(), v) == EvaluateSeek(old(State()), r) && Valid()
    {
      if probe.None? {
        return NoProbe;
      }
      var p := probe.value;
      if p.anchorMs != r.anchorMs {
        probe, seekFailures := None, 0;
        return NoProbe;
      }
      if r.drift.None? || r.drift.value > r.thresholdSec {
        probe := Some(p.(lastSample := r.current, lastSampleAtMs := r.nowMs));
        v := RecordFailure();
        return;
      }
      if r.nowMs - p.writtenAtMs < MIN_CONFIRM_MS {
        return Pending;
      }
      if !r.roomPaused {
        var sampleGapOk := r.nowMs - p.lastSampleAtMs >= MIN_SAMPLE_GAP_MS;
        var advanced := ApartBy(r.current, p.lastSample, STALE_EPSILON_SEC);
        var wasNearRoom := p.lastNearRoom;
        probe := Some(p.(lastSample := r.current, lastSampleAtMs := r.nowMs, lastNearRoom := true));
        if wasNearRoom && advanced {
          probe, seekFailures := None, 0;
          return Confirmed;
        }
        if wasNearRoom && sampleGapOk && !advanced {
          v := RecordFailure();
          return;
        }
        return Pending;
      }
      var moved := MovedToward(p.from, r.current, p.target);
      var stale := !moved && r.nowMs - p.lastSampleAtMs >= MIN_SAMPLE_GAP_MS
                   && Within(r.current, p.lastSample, STALE_EPSILON_SEC);
      probe := Some(p.(lastSample := r.current, lastSampleAtMs := r.nowMs));
      if !moved && stale {
        v := RecordFailure();
        return;
      }
      probe, seekFailures := None, 0;
      return Confirmed;
    }

    method SampleQuiescence(r: PauseReading) returns (v: PauseVerdict)
      modifies this
      ensures (State(), v) == SamplePause(old(State()), r)
    {
      if !r.current.Fin? {
        return PauseVerdict(false, false);
      }
      if pauseSample.None? {
        pauseSample := Some(PauseSample(r.current.value, r.nowMs));
        stableSamples := 0;
        return PauseVerdict(false, true);
      }
      if r.nowMs - pauseSample.value.atMs < PAUSE_MIN_SAMPLE_GAP_MS {
        return PauseVerdict(pauseSettled, false);
      }
      var moved := Abs(r.current.value - pauseSample.value.sec) > QUIESCE_EPSILON_SEC;
      pauseSample := Some(PauseSample(r.current.value, r.nowMs));
      if moved || r.wrapperPaused == Some(false) {
        stableSamples := 0;
        pauseSettled := false;
        pauseFailures := pauseFailures + 1;
        if pauseFailures >= MAX_VERIFY_FAILURES * 2 {
          pauseSettled := true;
          return PauseVerdict(true, true);
        }
        return PauseVerdict(false, true);
      }
      stableSamples := stableSamples + 1;
      if stableSamples >= QUIESCENT_SAMPLES - 1 {
        pauseFailures := 0;
        pauseSettled := true;
        return PauseVerdict(true, true);
      }
      return PauseVerdict(false, true);
    }

    /** True the first time a key is claimed, false while it stays the latest one. */
    method ClaimPauseSeek(key: (real, real)) returns (first: bool)
      modifies `pauseSeekKey
      ensures first <==> old(pauseSeekKey) != Some(key)
      ensures pauseSeekKey == Some(key)
    {
      if pauseSeekKey == Some(key) {
        return false;
      }
      pauseSeekKey := Some(key);
      return true;
    }
  }

  ghost predicate Bounded(s: TrackerState) {
    s.seekFailures < MAX_VERIFY_FAILURES && (s.probe.None? ==> s.seekFailures == 0)
  }

  // ---------------------------------------------------------------- runs of the tracker

  datatype Event =
    | Seek(anchorMs: real, from: Num, target: Num, atMs: real)
    | Read(reading: SeekReading)
    | ReadPause(pauseReading: PauseReading)
    | ForgetPause

  function Step(s: TrackerState, e: Event): (TrackerState, Option<Verdict>) {
    match e
    case Seek(a, from, target, at) => (NoteSeek(s, a, from, target, at), None)
    case Read(r) => var (n, v) := EvaluateSeek(s, r); (n, Some(v))
    case ReadPause(r) => (SamplePause(s, r).0, None)
    case ForgetPause => (ResetPauseSamples(s), None)
  }

  function Run(s: TrackerState, es: seq<Event>): TrackerState
    decreases |es|
  {
    if es == [] then s else Run(Step(s, es[0]).0, es[1..])
  }

  /** The verdicts of the seek readings of a run, in order. */
  function Verdicts(s: TrackerState, es: seq<Event>): seq<Verdict>
    decreases |es|
  {
    if es == [] then []
    else
      var (n, v) := Step(s, es[0]);
      (if v.Some? then [v.value] else []) + Verdicts(n, es[1..])
  }

  /** Every reading of the run is taken in a playing room and shows the same time. */
  predicate Frozen(es: seq<Event>, at: Num) {
    forall e | e in es && e.Read? :: e.reading.current == at && !e.reading.roomPaused
  }

  /** What keeps a frozen playhead from being confirmed: a near-room sample, if one was
      taken, already shows the frozen time. */
  ghost predicate StuckAt(s: TrackerState, at: Num) {
    s.probe.Some? && s.probe.value.lastNearRoom ==> s.probe.value.lastSample == at
  }

  lemma FrozenStep(s: TrackerState, e: Event, at: Num)
    requires StuckAt(s, at) && Frozen([e], at)
    ensures StuckAt(Step(s, e).0, at) && Step(s, e).1 != Some(Confirmed)
  {
    assert e in [e];
    if e.Read? {
      assert !ApartBy(at, at, STALE_EPSILON_SEC);
    }
  }

  /** A frozen playhead in a playing room is never confirmed, however the seek writes, the
      anchors, the drift readings and the pause samples interleave. */
  lemma {:induction false} FrozenNeverConfirmed(s: TrackerState, es: seq<Event>, at: Num)
    requires StuckAt(s, at) && Frozen(es, at)
    ensures Confirmed !in Verdicts(s, es)
    decreases |es|
  {
    if es != [] {
      assert Frozen([es[0]], at);
      FrozenStep(s, es[0], at);
      FrozenNeverConfirmed(Step(s, es[0]).0, es[1..], at);
    }
  }

  /** In every run from a fresh tracker a live probe has fewer than six failures. */
  lemma {:induction false} ProbeFailuresBounded(s: TrackerState, es: seq<Event>)
    requires Bounded(s)
    ensures Bounded(Run(s, es))
    decreases |es|
  {
    if es != [] {
      ProbeFailuresBounded(Step(s, es[0]).0, es[1..]);
    }
  }

  /** A duration is known when the player or the hint has one: a positive or an infinite number. */
  lemma DurationIsKnownIff(player: Num, hint: Num, x: real)
    ensures DurationReady(player, hint) <==> DurationReady(player, NaN) || DurationReady(NaN, hint)
    ensures DurationReady(Fin(x), NaN) <==> x > 0.0
    ensures DurationReady(NaN, Fin(x)) <==> x > 0.0
    ensures DurationReady(PosInf, NaN) && DurationReady(NaN, PosInf) && !DurationReady(NaN, NaN) && !DurationReady(NegInf, NegInf)
  {
  }

  /** Writes of one anchor, and readings of it that are far from the room clock. */
  predicate RetriesFar(es: seq<Event>, anchorMs: real) {
    forall e | e in es ::
      (e.Seek? && e.anchorMs == anchorMs)
      || (e.Read? && e.reading.anchorMs == anchorMs && (e.reading.drift.None? || e.reading.drift.value > e.reading.thresholdSec))
  }

  function Readings(es: seq<Event>): nat {
    if es == [] then 0 else (if es[0].Read? then 1 else 0) + Readings(es[1..])
  }

  /** Writing the seek again does not give the provider more time: through any number of retries
      of one anchor every far reading counts, the playhead is judged from where it was before
      the first write, and the sixth failure releases the probe. */
  lemma {:induction false} RetriesKeepCounting(s: TrackerState, es: seq<Event>, last: SeekReading)
    requires s.probe.Some? && RetriesFar(es + [Read(last)], s.probe.value.anchorMs) && s.seekFailures + Readings(es) < 6
    ensures var t := Run(s, es);
            && t.probe.Some? && t.probe.value.from == s.probe.value.from && t.probe.value.anchorMs == s.probe.value.anchorMs
            && t.seekFailures == s.seekFailures + Readings(es)
            && (EvaluateSeek(t, last).1 == GaveUp <==> s.seekFailures + Readings(es) == 5)
            && (EvaluateSeek(t, last).1 == GaveUp ==> EvaluateSeek(t, last).0.probe == None)
    decreases |es|
  {
    var all := es + [Read(last)];
    assert all[|es|] == Read(last) && all[|es|] in all;
    if es != [] {
      assert all[0] == es[0] && all[0] in all && all[1..] == es[1..] + [Read(last)];
      RetriesKeepCounting(Step(s, es[0]).0, es[1..], last);
    }
  }

  /** A write of another anchor starts over, from where the playhead is then; a reading of
      another anchor drops the probe and decides nothing. */
  lemma AnotherAnchorStartsOver(s: TrackerState, anchorMs: real, from: Num, target: Num, atMs: real, r: SeekReading)
    requires s.probe.Some? && s.probe.value.anchorMs != anchorMs && s.probe.value.anchorMs != r.anchorMs
    ensures var t := NoteSeek(s, anchorMs, from, target, atMs);
            && t.probe == Some(SeekProbe(anchorMs, from, target, atMs, from, atMs, false)) && t.seekFailures == 0
            && t.pauseSample == None && !t.pauseSettled && t.pauseSeekKey == s.pauseSeekKey
    ensures EvaluateSeek(s, r).1 == NoProbe && EvaluateSeek(s, r).0.probe == None && EvaluateSeek(s, r).0.seekFailures == 0
  {
  }

  /** Each reading of a run has its verdict. */
  lemma {:induction false} OneVerdictEach(s: TrackerState, es: seq<Event>, r: SeekReading)
    ensures |Verdicts(s, es)| == Readings(es)
    ensures Verdicts(s, es + [Read(r)]) == Verdicts(s, es) + [EvaluateSeek(Run(s, es), r).1]
    decreases |es|
  {
    if es == [] {
      assert es + [Read(r)] == [Read(r)] && [Read(r)][1..] == [];
      assert Verdicts(EvaluateSeek(s, r).0, []) == [];
    } else {
      var (n, v) := Step(s, es[0]);
      assert (es + [Read(r)])[1..] == es[1..] + [Read(r)];
      OneVerdictEach(n, es[1..], r);
      var first := if v.Some? then [v.value] else [];
      assert first + (Verdicts(n, es[1..]) + [EvaluateSeek(Run(s, es), r).1]) == first + Verdicts(n, es[1..]) + [EvaluateSeek(Run(s, es), r).1];
    }
  }

  /** The readings of a frozen playhead that stays near the room clock: the first one after
      the confirm delay, then each at least the sample gap after the one before. */
  predicate NearRoomSamples(rs: seq<SeekReading>, anchorMs: real, writtenAtMs: real, at: Num) {
    forall i | 0 <= i < |rs| ::
      && rs[i].anchorMs == anchorMs && rs[i].current == at && !rs[i].roomPaused && NearRoom(rs[i])
      && rs[i].nowMs - writtenAtMs >= MIN_CONFIRM_MS
      && (i > 0 ==> rs[i].nowMs - rs[i - 1].nowMs >= MIN_SAMPLE_GAP_MS)
  }

  function Reads(rs: seq<SeekReading>): seq<Event> {
    seq(|rs|, i requires 0 <= i < |rs| => Read(rs[i]))
  }

  /** The probe after `k` such samples. */
  ghost predicate Waiting(s: TrackerState, k: nat, rs: seq<SeekReading>, anchorMs: real, writtenAtMs: real, at: Num)
    requires k <= |rs|
  {
    s.probe.Some?
    && s.probe.value.anchorMs == anchorMs && s.probe.value.writtenAtMs == writtenAtMs
    && (if k == 0 then !s.probe.value.lastNearRoom && s.seekFailures == 0
        else s.probe.value.lastNearRoom && s.probe.value.lastSample == at
             && s.probe.value.lastSampleAtMs == rs[k - 1].nowMs && s.seekFailures == k - 1)
  }

  lemma {:induction false} FrozenWaits(s: TrackerState, rs: seq<SeekReading>, k: nat, anchorMs: real, writtenAtMs: real, at: Num)
    requires Waiting(s, 0, rs, anchorMs, writtenAtMs, at)
    requires NearRoomSamples(rs, anchorMs, writtenAtMs, at)
    requires k <= |rs| && k <= 6
    ensures Waiting(Run(s, Reads(rs[..k])), k, rs, anchorMs, writtenAtMs, at)
    decreases k
  {
    if k == 0 {
      assert Reads(rs[..0]) == [];
    } else {
      FrozenWaits(s, rs, k - 1, anchorMs, writtenAtMs, at);
      assert Reads(rs[..k]) == Reads(rs[..k - 1]) + [Read(rs[k - 1])];
      RunAppend(s, Reads(rs[..k - 1]), Read(rs[k - 1]));
      assert !ApartBy(at, at, STALE_EPSILON_SEC);
    }
  }

  lemma {:induction false} RunAppend(s: TrackerState, es: seq<Event>, e: Event)
    ensures Run(s, es + [e]) == Step(Run(s, es), e).0
    decreases |es|
  {
    if es == [] {
      assert [e][1..] == [];
    } else {
      assert (es + [e])[1..] == es[1..] + [e];
      RunAppend(Step(s, es[0]).0, es[1..], e);
    }
  }

  /** A frozen playhead near the room clock is held for six samples and released on exactly
      the seventh. */
  lemma ReleasedOnSeventh(s: TrackerState, from: Num, target: Num, anchorMs: real, writtenAtMs: real,
                          rs: seq<SeekReading>, at: Num)
    requires s.probe.None? || s.probe.value.anchorMs != anchorMs
    requires |rs| == 7 && NearRoomSamples(rs, anchorMs, writtenAtMs, at)
    ensures var s0 := NoteSeek(s, anchorMs, from, target, writtenAtMs);
            && (forall k | 0 <= k < 6 :: EvaluateSeek(Run(s0, Reads(rs[..k])), rs[k]).1 == Pending)
            && EvaluateSeek(Run(s0, Reads(rs[..6])), rs[6]).1 == GaveUp
            && Run(s0, Reads(rs)).probe == None
  {
    var s0 := NoteSeek(s, anchorMs, from, target, writtenAtMs);
    assert !ApartBy(at, at, STALE_EPSILON_SEC);
    forall k | 0 <= k < 6
      ensures EvaluateSeek(Run(s0, Reads(rs[..k])), rs[k]).1 == Pending
    {
      FrozenWaits(s0, rs, k, anchorMs, writtenAtMs, at);
    }
    FrozenWaits(s0, rs, 6, anchorMs, writtenAtMs, at);
    assert Reads(rs) == Reads(rs[..6]) + [Read(rs[6])];
    RunAppend(s0, Reads(rs[..6]), Read(rs[6]));
  }

  /** Readings of one anchor away from the room clock. */
  predicate FarSamples(rs: seq<SeekReading>, anchorMs: real) {
    forall r | r in rs :: r.anchorMs == anchorMs && !NearRoom(r)
  }

  /** The probe after `k` far samples: gone with the sixth failure, otherwise as near the room
      as it was, with the last sample taken. */
  lemma {:induction false} FarSamplesFail(s: TrackerState, rs: seq<SeekReading>, k: nat)
    requires s.probe.Some? && Bounded(s) && FarSamples(rs, s.probe.value.anchorMs) && k <= |rs|
    ensures var t := Run(s, Reads(rs[..k]));
            if s.seekFailures + k < MAX_VERIFY_FAILURES then
              && t.probe.Some? && t.seekFailures == s.seekFailures + k
              && t.probe.value == (if k == 0 then s.probe.value
                                   else s.probe.value.(lastSample := rs[k - 1].current, lastSampleAtMs := rs[k - 1].nowMs))
            else t.probe == None
    decreases k
  {
    if k == 0 {
      assert Reads(rs[..0]) == [];
    } else {
      FarSamplesFail(s, rs, k - 1);
      assert Reads(rs[..k]) == Reads(rs[..k - 1]) + [Read(rs[k - 1])];
      RunAppend(s, Reads(rs[..k - 1]), Read(rs[k - 1]));
      assert rs[k - 1] in rs;
    }
  }

  /** A playhead that was near the room clock once, then far for any number of samples, and
      comes back near while it moves, is confirmed at once exactly when the far samples have
      not used up the failures: they do not take the near sample back. */
  lemma FarSamplesKeepNearRoom(s: TrackerState, far: seq<SeekReading>, near: SeekReading)
    requires s.probe.Some? && s.probe.value.lastNearRoom && Bounded(s)
    requires FarSamples(far, s.probe.value.anchorMs)
    requires near.anchorMs == s.probe.value.anchorMs && NearRoom(near) && !near.roomPaused
    requires near.nowMs - s.probe.value.writtenAtMs >= MIN_CONFIRM_MS
    requires ApartBy(near.current, if far == [] then s.probe.value.lastSample else far[|far| - 1].current, STALE_EPSILON_SEC)
    ensures EvaluateSeek(Run(s, Reads(far)), near).1 == Confirmed <==> s.seekFailures + |far| < MAX_VERIFY_FAILURES
  {
    FarSamplesFail(s, far, |far|);
    assert far[..|far|] == far;
  }

  // ---------------------------------------------------------------- seeks in a paused room

  /** The verdict on a near reading in a paused room, once the write is 100 ms old: a failure
      exactly when the playhead has come no 0.25 s closer to the target and stands where it
      stood 150 ms before; anything else confirms the seek. */
  lemma PausedVerdictIff(s: TrackerState, r: SeekReading)
    requires s.probe.Some? && r.anchorMs == s.probe.value.anchorMs && r.roomPaused
    requires r.drift.Some? && r.drift.value <= r.thresholdSec
    requires s.probe.value.from.Fin? && s.probe.value.target.Fin? && s.probe.value.lastSample.Fin? && r.current.Fin?
    ensures var p := s.probe.value;
            var closer := Abs(p.from.value - p.target.value) - Abs(r.current.value - p.target.value);
            var stuck := closer < 0.25 && r.nowMs - p.lastSampleAtMs >= 150.0 && Abs(r.current.value - p.lastSample.value) < 0.05;
            if r.nowMs - p.writtenAtMs < 100.0 then EvaluateSeek(s, r) == (s, Pending)
            else if !stuck then EvaluateSeek(s, r) == (s.(probe := None, seekFailures := 0), Confirmed)
            else
              var (t, v) := EvaluateSeek(s, r);
              if s.seekFailures >= 5 then v == GaveUp && t.probe == None && t.seekFailures == 0
              else v == Pending && t.seekFailures == s.seekFailures + 1
                   && t.probe == Some(p.(lastSample := r.current, lastSampleAtMs := r.nowMs))
  {
  }

  /** The same in a playing room: the seek is confirmed exactly when the reading before was near
      the room too and the playhead has moved on by 0.05 s since, and a playhead that was near
      and has not moved for 150 ms is a failure. The first near reading decides nothing. */
  lemma PlayingVerdictIff(s: TrackerState, r: SeekReading)
    requires s.probe.Some? && r.anchorMs == s.probe.value.anchorMs && !r.roomPaused
    requires r.drift.Some? && r.drift.value <= r.thresholdSec
    requires s.probe.value.lastSample.Fin? && r.current.Fin?
    ensures var p := s.probe.value;
            var advanced := Abs(r.current.value - p.lastSample.value) >= 0.05;
            var (t, v) := EvaluateSeek(s, r);
            if r.nowMs - p.writtenAtMs < 100.0 then t == s && v == Pending
            else if p.lastNearRoom && advanced then t == s.(probe := None, seekFailures := 0) && v == Confirmed
            else
              var failed := p.lastNearRoom && r.nowMs - p.lastSampleAtMs >= 150.0;
              if failed && s.seekFailures >= 5 then v == GaveUp && t.probe == None && t.seekFailures == 0
              else v == Pending && t.seekFailures == s.seekFailures + (if failed then 1 else 0)
                   && t.probe == Some(p.(lastSample := r.current, lastSampleAtMs := r.nowMs, lastNearRoom := true))
  {
  }

  // ---------------------------------------------------------------- pause quiescence

  function PauseRun(s: TrackerState, rs: seq<PauseReading>): TrackerState
    decreases |rs|
  {
    if rs == [] then s else PauseRun(SamplePause(s, rs[0]).0, rs[1..])
  }

  /** The playhead stood still from one judged reading to the next, and the wrapper does not
      say that it plays: what an iframe at rest looks like. */
  predicate StoodStill(before: PauseReading, after: PauseReading) {
    before.current.Fin? && after.current.Fin? && Abs(after.current.value - before.current.value) <= 0.35
    && after.wrapperPaused != Some(false)
  }

  /** How many readings at the end of the list, one after the other, did not. */
  function Moves(judged: seq<PauseReading>): nat {
    var n := |judged|;
    if n < 2 || StoodStill(judged[n - 2], judged[n - 1]) then 0 else 1 + Moves(judged[..n - 1])
  }

  /** What a list of judged readings says about the pause: it holds when the playhead last stood
      still, and is taken to hold after twelve moves on end. */
  predicate AtRest(judged: seq<PauseReading>) {
    |judged| >= 2 && (StoodStill(judged[|judged| - 2], judged[|judged| - 1]) || Moves(judged) >= 12)
  }

  /** The tracker knows just this about the readings judged so far. */
  predicate Remembers(s: TrackerState, judged: seq<PauseReading>) {
    && (forall r | r in judged :: r.current.Fin?)
    && s.pauseFailures == Moves(judged) && s.pauseSettled == AtRest(judged)
    && s.pauseSample == if judged == [] then None
                        else Some(PauseSample(judged[|judged| - 1].current.value, judged[|judged| - 1].nowMs))
  }

  /** Which readings are judged: those with a time, and at least 1.5 s after the last judged. */
  predicate IsJudged(judged: seq<PauseReading>, r: PauseReading) {
    r.current.Fin? && (judged == [] || r.nowMs - judged[|judged| - 1].nowMs >= 1500.0)
  }

  lemma SampleRemembers(s: TrackerState, judged: seq<PauseReading>, r: PauseReading)
    requires Remembers(s, judged)
    ensures var (t, v) := SamplePause(s, r);
            var now := if IsJudged(judged, r) then judged + [r] else judged;
            && v.sampled == IsJudged(judged, r)
            && Remembers(t, now)
            && (r.current.Fin? ==> v.quiescent == AtRest(now))
            && (!r.current.Fin? ==> !v.quiescent)
  {
    var now := judged + [r];
    if judged != [] {
      assert judged[|judged| - 1] in judged;
    }
    assert now[..|judged|] == judged;
  }

  lemma {:induction false} RunRemembers(s: TrackerState, before: seq<PauseReading>, rs: seq<PauseReading>)
    requires Remembers(s, before)
    ensures Remembers(PauseRun(s, rs), before + JudgedOnly(s, rs))
    decreases |rs|
  {
    if rs == [] {
      assert before + [] == before;
    } else {
      SampleRemembers(s, before, rs[0]);
      var (n, v) := SamplePause(s, rs[0]);
      hide Remembers, SamplePause, AtRest, IsJudged;
      RunRemembers(n, if v.sampled then before + [rs[0]] else before, rs[1..]);
      Regrouped(before, rs[0], JudgedOnly(n, rs[1..]));
    }
  }

  lemma Regrouped<T>(a: seq<T>, x: T, b: seq<T>)
    ensures a + ([x] + b) == (a + [x]) + b && a + ([] + b) == a + b
  {
  }

  /** When a pause is taken as done, in every run of readings since a reset: exactly when the
      playhead stood still, within 0.35 s and its wrapper not playing, between the last two
      judged readings, or has moved at twelve on end. */
  lemma SettledIff(s: TrackerState, rs: seq<PauseReading>)
    ensures var r := ResetPauseSamples(s);
            PauseRun(r, rs).pauseSettled <==> AtRest(JudgedOnly(r, rs))
  {
    RunRemembers(ResetPauseSamples(s), [], rs);
    assert [] + JudgedOnly(ResetPauseSamples(s), rs) == JudgedOnly(ResetPauseSamples(s), rs);
  }

  /** How many of the readings were judged, and whether one of them was quiescent. */
  function Judged(s: TrackerState, rs: seq<PauseReading>): nat
    decreases |rs|
  {
    if rs == [] then 0
    else (if SamplePause(s, rs[0]).1.sampled then 1 else 0) + Judged(SamplePause(s, rs[0]).0, rs[1..])
  }

  predicate SomeQuiescent(s: TrackerState, rs: seq<PauseReading>)
    decreases |rs|
  {
    rs != [] && (SamplePause(s, rs[0]).1.quiescent || SomeQuiescent(SamplePause(s, rs[0]).0, rs[1..]))
  }

  /** Judged samples still possible without a quiescent verdict. */
  ghost function Patience(s: TrackerState): int {
    if s.pauseSample.None? then 12 - s.pauseFailures else 11 - s.pauseFailures
  }

  lemma {:induction false} QuiescentWithin(s: TrackerState, rs: seq<PauseReading>)
    requires !s.pauseSettled && s.pauseFailures < 12
    requires Judged(s, rs) > Patience(s)
    ensures SomeQuiescent(s, rs)
    decreases |rs|
  {
    var (n, v) := SamplePause(s, rs[0]);
    if !v.quiescent {
      QuiescentWithin(n, rs[1..]);
    }
  }

  /** From a reset, thirteen judged samples always contain a quiescent verdict. */
  lemma QuiescentWithinThirteen(s: TrackerState, rs: seq<PauseReading>)
    requires Judged(ResetPauseSamples(s), rs) >= 13
    ensures SomeQuiescent(ResetPauseSamples(s), rs)
  {
    QuiescentWithin(ResetPauseSamples(s), rs);
  }

  /** The reading is far from the last judged one, or its wrapper says that it plays. */
  predicate Moving(s: TrackerState, r: PauseReading) {
    r.current.Fin?
    && (s.pauseSample.Some? ==>
          r.nowMs - s.pauseSample.value.atMs >= 1500.0
          && (Abs(r.current.value - s.pauseSample.value.sec) > 0.35 || r.wrapperPaused == Some(false)))
  }

  predicate AllMoving(s: TrackerState, rs: seq<PauseReading>)
    decreases |rs|
  {
    rs == [] || (Moving(s, rs[0]) && AllMoving(SamplePause(s, rs[0]).0, rs[1..]))
  }

  /** Twelve are not enough: a baseline and eleven samples that move or whose wrapper plays are
      all judged and none is quiescent, so thirteen is the exact bound. */
  lemma {:induction false} MovingSamples(s: TrackerState, rs: seq<PauseReading>)
    requires AllMoving(s, rs) && !s.pauseSettled && |rs| <= Patience(s)
    ensures Judged(s, rs) == |rs| && !SomeQuiescent(s, rs)
    decreases |rs|
  {
    if rs != [] {
      MovingSamples(SamplePause(s, rs[0]).0, rs[1..]);
    }
  }

  /** The readings of a run that are judged. */
  function JudgedOnly(s: TrackerState, rs: seq<PauseReading>): seq<PauseReading>
    decreases |rs|
  {
    if rs == [] then []
    else
      var (n, v) := SamplePause(s, rs[0]);
      (if v.sampled then [rs[0]] else []) + JudgedOnly(n, rs[1..])
  }

  /** Readings without a time, and those too close to the last judged one, may be left out of
      any run: the state is the same, and so is whether a pause is found quiescent at all. */
  lemma {:induction false} OnlyJudgedSamplesCount(s: TrackerState, rs: seq<PauseReading>)
    ensures var judged := JudgedOnly(s, rs);
            && PauseRun(s, rs) == PauseRun(s, judged) && |judged| == Judged(s, rs) == Judged(s, judged)
            && (!s.pauseSettled ==> (SomeQuiescent(s, rs) <==> SomeQuiescent(s, judged)))
            && (SomeQuiescent(s, judged) ==> SomeQuiescent(s, rs))
    decreases |rs|
  {
    if rs != [] {
      var (n, v) := SamplePause(s, rs[0]);
      OnlyJudgedSamplesCount(n, rs[1..]);
      if v.sampled {
        var judged := JudgedOnly(s, rs);
        assert judged[0] == rs[0] && judged[1..] == JudgedOnly(n, rs[1..]);
      } else {
        assert n == s && JudgedOnly(s, rs) == JudgedOnly(n, rs[1..]);
      }
    }
  }
}
