/** Conservation laws of the delay graph over whole runs. */
module AudioConservation {
  import opened Js
  import opened AudioSkew
  import opened AudioDelayGraph

  /** Frames are neither invented nor lost: everything that came in was played, is queued, was
      dropped or trimmed; everything that went out was played, inserted or underrun. */
  ghost predicate Accounted(g: Graph) {
    var r := g.rec;
    && |r.input| == |r.played| + |g.pending| + r.dropped + r.trimmed
    && |r.input| == |r.output| == |r.played| + r.inserted + r.underrun
    && OneSided(g.plan)
  }

  /** `line` is made of the frames of `source` at the increasing positions `at`. */
  ghost predicate Tracks(at: seq<nat>, line: seq<StereoFrame>, source: seq<StereoFrame>) {
    && |at| == |line|
    && (forall i | 0 <= i < |at| :: at[i] < |source| && line[i] == source[at[i]])
    && (forall i, j | 0 <= i < j < |at| :: at[i] < at[j])
  }

  /** What is played and queued is the input in its order, less the frames taken out. */
  ghost predicate InOrder(g: Graph) {
    |g.rec.kept| == |g.rec.played| + |g.pending| && Tracks(g.rec.kept, g.rec.played + g.pending, g.rec.input)
  }

  /** The played frames come out in that order, with silence between them. */
  ghost predicate Played(g: Graph) {
    Tracks(g.rec.at, g.rec.played, g.rec.output) && Hushed(g.rec.at, g.rec.output)
  }

  ghost predicate Hushed(at: seq<nat>, line: seq<StereoFrame>) {
    forall k: nat | k < |line| :: k in at || line[k] == Silence
  }

  /** Frames by which the audio has been or is about to be advanced. */
  function Advance(g: Graph): int {
    g.rec.dropped + g.plan.drop - g.rec.inserted - g.plan.insert
  }

  /** Each change of target has cost at most half a sample against the exact skew. */
  ghost predicate NearTarget(g: Graph, sampleRate: real) {
    var exact := g.plan.appliedEarlyMs / 1000.0 * sampleRate;
    && exact - g.rec.changes as real / 2.0 <= Advance(g) as real <= exact + g.rec.changes as real / 2.0
    && g.plan.appliedEarlyMs == EarlyMs(g.delayMs) && AUDIO_DELAY_MIN_MS <= g.delayMs <= AUDIO_DELAY_MAX_MS
  }

  ghost predicate Inv(g: Graph, sampleRate: real) {
    Accounted(g) && InOrder(g) && Played(g) && NearTarget(g, sampleRate)
  }

  datatype Event = NewDelay(ms: Num) | Callback(frames: seq<StereoFrame>) | Microtask

  /** A callback runs only while the processor exists, that is on the negative path. */
  function Step(g: Graph, e: Event, sampleRate: real): Graph
    requires InOrder(g)
  {
    match e
    case NewDelay(ms) => SetDelay(g, ms, sampleRate)
    case Callback(frames) => if g.active then Audio(g, frames) else g
    case Microtask => Leave(g)
  }

  lemma ExactDifference(a: real, b: real, sampleRate: real)
    ensures (b - a) / 1000.0 * sampleRate == b / 1000.0 * sampleRate - a / 1000.0 * sampleRate
  {
  }

  lemma RetargetNear(g: Graph, delayMs: real, sampleRate: real)
    requires NearTarget(g, sampleRate) && OneSided(g.plan)
    requires sampleRate > 0.0 && AUDIO_DELAY_MIN_MS <= delayMs <= AUDIO_DELAY_MAX_MS
    ensures NearTarget(Retarget(g.(delayMs := delayMs), EarlyMs(delayMs), sampleRate), sampleRate)
    ensures OneSided(Retarget(g.(delayMs := delayMs), EarlyMs(delayMs), sampleRate).plan)
  {
    hide PlanEarlySkewChange;
    PlanMovesByDelta(g.plan, EarlyMs(delayMs), sampleRate);
    ExactDifference(g.plan.appliedEarlyMs, EarlyMs(delayMs), sampleRate);
  }

  lemma RetargetKeepsInv(g: Graph, delayMs: real, active: bool, sampleRate: real)
    requires Inv(g, sampleRate) && sampleRate > 0.0 && AUDIO_DELAY_MIN_MS <= delayMs <= AUDIO_DELAY_MAX_MS
    ensures Inv(Retarget(g.(delayMs := delayMs, active := active), EarlyMs(delayMs), sampleRate), sampleRate)
  {
    hide PlanEarlySkewChange, Tracks;
    RetargetNear(g, delayMs, sampleRate);
  }

  lemma TracksCut(at: seq<nat>, played: seq<StereoFrame>, queue: seq<StereoFrame>, source: seq<StereoFrame>, count: nat)
    requires Tracks(at, played + queue, source) && count <= |queue|
    ensures Tracks(CutKept(at, |played|, count), played + queue[count..], source)
  {
    var k, line := CutKept(at, |played|, count), played + queue[count..];
    forall i | 0 <= i < |k|
      ensures k[i] == at[if i < |played| then i else i + count]
      ensures line[i] == (played + queue)[if i < |played| then i else i + count]
    {
    }
  }

  lemma TracksExtend(at: seq<nat>, line: seq<StereoFrame>, source: seq<StereoFrame>, more: seq<StereoFrame>, from: nat, count: nat)
    requires Tracks(at, line, source) && from + count <= |more|
    ensures Tracks(at + Positions(|source| + from, count), line + more[from..from + count], source + more)
  {
    var k := at + Positions(|source| + from, count);
    forall i | |at| <= i < |k|
      ensures k[i] == |source| + from + (i - |at|)
    {
    }
  }

  lemma HushedExtend(at: seq<nat>, line: seq<StereoFrame>, more: seq<StereoFrame>, from: nat, count: nat)
    requires Hushed(at, line) && from + count <= |more|
    requires forall i | 0 <= i < |more| && !(from <= i < from + count) :: more[i] == Silence
    ensures Hushed(at + Positions(|line| + from, count), line + more)
  {
    var positions := Positions(|line| + from, count);
    forall k: nat | k < |line + more|
      ensures k in at + positions || (line + more)[k] == Silence
    {
      var i := k - |line|;
      if from <= i < from + count {
        assert positions[i - from] == k;
      }
    }
  }

  lemma TrimKeepsInv(g: Graph, sampleRate: real)
    requires Inv(g, sampleRate)
    ensures Inv(Trim(g), sampleRate)
  {
    hide Tracks;
    TracksCut(g.rec.kept, g.rec.played, g.pending, g.rec.input, TrimCount(|g.pending|));
  }

  /** The tracked line once `frames` arrived, `dropped` went and `passed` were played. */
  lemma OrderAfterQuantum(kept: seq<nat>, played: seq<StereoFrame>, pending: seq<StereoFrame>, input: seq<StereoFrame>,
                          frames: seq<StereoFrame>, dropped: nat, passed: nat)
    requires Tracks(kept, played + pending, input) && |kept| == |played| + |pending|
    requires dropped + passed <= |pending| + |frames|
    ensures var queue := (pending + frames)[dropped..];
            Tracks(CutKept(kept + Positions(|input|, |frames|), |played|, dropped),
                   (played + queue[..passed]) + queue[passed..], input + frames)
  {
    hide CutKept, Tracks;
    TracksExtend(kept, played + pending, input, frames, 0, |frames|);
    assert frames[0..0 + |frames|] == frames;
    assert played + pending + frames == played + (pending + frames);
    TracksCut(kept + Positions(|input|, |frames|), played, pending + frames, input + frames, dropped);
    var queue := (pending + frames)[dropped..];
    assert played + queue == (played + queue[..passed]) + queue[passed..];
  }

  lemma ProcessKeepsOrder(g: Graph, frames: seq<StereoFrame>)
    requires InOrder(g)
    ensures InOrder(Process(g, frames))
  {
    hide Fill, Tracks, CutKept, Positions;
    var r := g.rec;
    var s := SplitQuantum(|g.pending| + |frames|, g.plan.drop, g.plan.insert, |frames|);
    OrderAfterQuantum(r.kept, r.played, g.pending, r.input, frames, s.dropped, s.passed);
  }

  lemma FillPlays(queue: seq<StereoFrame>, insert: nat, n: nat)
    ensures var inserted := MinInt(insert, n);
            var passed := MinInt(n - inserted, |queue|);
            Fill(queue, insert, n)[inserted..inserted + passed] == queue[..passed]
            && forall i | 0 <= i < n && !(inserted <= i < inserted + passed) :: Fill(queue, insert, n)[i] == Silence
  {
  }

  lemma ProcessKeepsPlayed(g: Graph, frames: seq<StereoFrame>)
    requires InOrder(g) && Played(g)
    ensures Played(Process(g, frames))
  {
    hide Fill, Tracks, Hushed, CutKept, Positions;
    var r, t := g.rec, Process(g, frames).rec;
    var s := SplitQuantum(|g.pending| + |frames|, g.plan.drop, g.plan.insert, |frames|);
    var queue := (g.pending + frames)[s.dropped..];
    var out := Fill(queue, g.plan.insert, |frames|);
    FillPlays(queue, g.plan.insert, |frames|);
    TracksExtend(r.at, r.played, r.output, out, s.inserted, s.passed);
    HushedExtend(r.at, r.output, out, s.inserted, s.passed);
    assert t.output == r.output + out && t.played == r.played + queue[..s.passed];
  }

  /** A quantum in numbers: the accounts hold, the advance is untouched, and silence runs under
      only when queue and inserts are exhausted. */
  lemma ProcessCounts(g: Graph, frames: seq<StereoFrame>)
    requires Accounted(g) && |g.rec.kept| == |g.rec.played| + |g.pending|
    ensures var t := Process(g, frames);
            && Accounted(t) && Advance(t) == Advance(g) && t.rec.trimmed == g.rec.trimmed && t.rec.changes == g.rec.changes
            && t.delayMs == g.delayMs && t.plan.appliedEarlyMs == g.plan.appliedEarlyMs && t.rec.underrun >= g.rec.underrun
            && (t.rec.underrun > g.rec.underrun ==> |t.pending| == 0 && t.plan.insert == 0)
            && (t.plan.drop > 0 ==> |t.pending| == 0)
  {
    hide Fill, CutKept, Positions;
  }

  lemma AudioKeepsInv(g: Graph, frames: seq<StereoFrame>, sampleRate: real)
    requires Inv(g, sampleRate)
    ensures Inv(Audio(g, frames), sampleRate)
  {
    TrimKeepsInv(g, sampleRate);
    ProcessCounts(Trim(g), frames);
    ProcessKeepsOrder(Trim(g), frames);
    ProcessKeepsPlayed(Trim(g), frames);
    NearTargetStays(Trim(g), Process(Trim(g), frames), sampleRate);
    hide Process, Trim, InOrder, Played, NearTarget, Accounted, Advance;
  }

  lemma NearTargetStays(g: Graph, t: Graph, sampleRate: real)
    requires NearTarget(g, sampleRate) && Advance(t) == Advance(g) && t.rec.changes == g.rec.changes
    requires t.delayMs == g.delayMs && t.plan.appliedEarlyMs == g.plan.appliedEarlyMs
    ensures NearTarget(t, sampleRate)
  {
  }

  lemma StepKeepsInv(g: Graph, e: Event, sampleRate: real)
    requires Inv(g, sampleRate) && sampleRate > 0.0
    ensures Inv(Step(g, e, sampleRate), sampleRate)
  {
    match e
    case NewDelay(ms) =>
      var next := ClampDelayMs(ms);
      if next != g.delayMs {
        RetargetKeepsInv(g, next, g.active || EarlyMs(next) > 0.0, sampleRate);
      }
    case Callback(frames) =>
      if g.active {
        AudioKeepsInv(g, frames, sampleRate);
      }
    case Microtask =>
  }

  lemma AttachInv(initialDelayMs: Num, sampleRate: real)
    requires sampleRate > 0.0
    ensures Inv(Attach(initialDelayMs, sampleRate), sampleRate)
  {
    var delay := ClampDelayMs(initialDelayMs);
    var g := Graph(0.0, SkewPlan(0.0, 0, 0), false, [], NoRecord);
    assert 0.0 / 1000.0 * sampleRate == 0.0;
    RetargetKeepsInv(g, delay, delay < 0.0, sampleRate);
    assert PlanEarlySkewChange(g.plan, 0.0, sampleRate) == g.plan;
  }

  /** The graph after a run of events. */
  ghost function Run(g: Graph, run: seq<Event>, sampleRate: real): (r: Graph)
    requires Inv(g, sampleRate) && sampleRate > 0.0
    ensures Inv(r, sampleRate)
    decreases |run|
  {
    if run == [] then g else StepKeepsInv(g, run[0], sampleRate); Run(Step(g, run[0], sampleRate), run[1..], sampleRate)
  }

  /** A run from the moment the graph is attached. */
  ghost function RunFrom(initialDelayMs: Num, run: seq<Event>, sampleRate: real): (g: Graph)
    requires sampleRate > 0.0
    ensures Inv(g, sampleRate)
  {
    AttachInv(initialDelayMs, sampleRate);
    Run(Attach(initialDelayMs, sampleRate), run, sampleRate)
  }

  /** The laws of every run: drop and insert work never coexist; queue plus inserts minus drops
      differs from the target only by underrun silence, trimming and rounding of at most half
      a sample per change; the output is as long as the input and plays it in order, less
      what was dropped or trimmed. */
  lemma ConservationLaws(initialDelayMs: Num, run: seq<Event>, sampleRate: real)
    requires sampleRate > 0.0
    ensures var g := RunFrom(initialDelayMs, run, sampleRate);
            var r := g.rec;
            && (g.plan.drop == 0 || g.plan.insert == 0)
            && |g.pending| + g.plan.insert - g.plan.drop == r.underrun - r.trimmed - Advance(g)
            && |r.output| == |r.input|
            && InOrder(g) && Played(g) && |r.kept| == |r.input| - r.dropped - r.trimmed
            && NearTarget(g, sampleRate)
  {
  }
}
