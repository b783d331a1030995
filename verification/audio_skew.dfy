/** Sample accounting for audio that has to come earlier than the picture: frames are dropped
    from a queue to advance and silence is inserted to fall back. */
module AudioSkew {
  import opened Js

  datatype StereoFrame = StereoFrame(left: real, right: real)

  const Silence: StereoFrame := StereoFrame(0.0, 0.0)

  datatype SkewPlan = SkewPlan(appliedEarlyMs: real, drop: nat, insert: nat)

  function MsToSamples(ms: real, sampleRate: real): nat {
    if sampleRate <= 0.0 then 0 else MaxInt(0, Round(ms / 1000.0 * sampleRate))
  }

  /** Opposite pending work is cancelled before new work is added. */
  function PlanEarlySkewChange(current: SkewPlan, targetEarlyMs: real, sampleRate: real): SkewPlan {
    var target := Max(0.0, targetEarlyMs);
    var delta := target - current.appliedEarlyMs;
    if delta > 0.0 then
      var samples := MsToSamples(delta, sampleRate);
      if current.insert >= samples then SkewPlan(target, current.drop, current.insert - samples)
      else SkewPlan(target, current.drop + samples - current.insert, 0)
    else if delta < 0.0 then
      var samples := MsToSamples(-delta, sampleRate);
      if current.drop >= samples then SkewPlan(target, current.drop - samples, current.insert)
      else SkewPlan(target, 0, current.insert + samples - current.drop)
    else
      SkewPlan(target, current.drop, current.insert)
  }

  predicate OneSided(p: SkewPlan) {
    p.drop == 0 || p.insert == 0
  }

  /** A change of target moves the planned advance by the change in samples, rounded once. */
  lemma PlanMovesByDelta(p: SkewPlan, targetEarlyMs: real, sampleRate: real)
    requires sampleRate > 0.0 && OneSided(p)
    ensures var q := PlanEarlySkewChange(p, targetEarlyMs, sampleRate);
            var exact := (q.appliedEarlyMs - p.appliedEarlyMs) / 1000.0 * sampleRate;
            var moved := (q.drop - q.insert) - (p.drop - p.insert);
            && OneSided(q) && q.appliedEarlyMs == Max(0.0, targetEarlyMs)
            && exact - 0.5 <= moved as real <= exact + 0.5
            && (q.appliedEarlyMs == p.appliedEarlyMs ==> q == p)
  {
    var q := PlanEarlySkewChange(p, targetEarlyMs, sampleRate);
    var delta := q.appliedEarlyMs - p.appliedEarlyMs;
    if delta > 0.0 {
      SampleSign(delta, sampleRate);
    } else if delta < 0.0 {
      SampleSign(-delta, sampleRate);
      assert -delta / 1000.0 * sampleRate == -(delta / 1000.0 * sampleRate);
    } else {
      assert delta / 1000.0 * sampleRate == 0.0;
    }
  }

  lemma SampleSign(ms: real, sampleRate: real)
    requires ms > 0.0 && sampleRate > 0.0
    ensures ms / 1000.0 * sampleRate >= 0.0
    ensures MsToSamples(ms, sampleRate) == Round(ms / 1000.0 * sampleRate)
  {
  }

  /** Toggling the target away and back before any audio ran leaves no residue. */
  lemma ToggleLeavesNoResidue(p: SkewPlan, targetEarlyMs: real, sampleRate: real)
    requires OneSided(p) && p.appliedEarlyMs >= 0.0
    ensures PlanEarlySkewChange(PlanEarlySkewChange(p, targetEarlyMs, sampleRate), p.appliedEarlyMs, sampleRate) == p
  {
  }

  // ---------------------------------------------------------------- one quantum

  function Silences(n: nat): seq<StereoFrame> {
    seq(n, i => Silence)
  }

  datatype Processed = Processed(pending: seq<StereoFrame>, output: seq<StereoFrame>, drop: nat, insert: nat)

  /** How a quantum splits: frames dropped, silences inserted, frames passed through. */
  datatype Split = Split(dropped: nat, inserted: nat, passed: nat)

  function SplitQuantum(queued: nat, drop: nat, insert: nat, outputCount: nat): Split {
    var dropped := MinInt(drop, queued);
    var inserted := MinInt(insert, outputCount);
    Split(dropped, inserted, MinInt(outputCount - inserted, queued - dropped))
  }

  /** `n` output frames from a queue: inserted silence, queued frames, silence once it is dry. */
  function Fill(queue: seq<StereoFrame>, insert: nat, n: nat): (out: seq<StereoFrame>)
    ensures |out| == n
  {
    var inserted := MinInt(insert, n);
    var passed := MinInt(n - inserted, |queue|);
    Silences(inserted) + queue[..passed] + Silences(n - inserted - passed)
  }

  /** One quantum in closed form: drop from the front of queue and input, then fill. */
  function Quantum(frames: seq<StereoFrame>, pending: seq<StereoFrame>, drop: nat, insert: nat, outputCount: nat): Processed {
    var s := SplitQuantum(|pending| + |frames|, drop, insert, outputCount);
    var queue := (pending + frames)[s.dropped..];
    Processed(queue[s.passed..], Fill(queue, insert, outputCount), drop - s.dropped, insert - s.inserted)
  }

  method ProcessSkewQuantum(frames: seq<StereoFrame>, pending: seq<StereoFrame>, samplesToDrop: nat, samplesToInsert: nat,
                            outputFrameCount: nat)
    returns (r: Processed)
    ensures r == Quantum(frames, pending, samplesToDrop, samplesToInsert, outputFrameCount)
  {
    var queue := pending;
    for i := 0 to |frames|
      invariant queue == pending + frames[..i]
    {
      queue := queue + [frames[i]];
    }
    assert queue == pending + frames;
    var drop;
    queue, drop := DropFront(queue, samplesToDrop);
    var output, insert;
    queue, output, insert := FillOutput(queue, samplesToInsert, outputFrameCount);
    r := Processed(queue, output, drop, insert);
  }

  method DropFront(queue0: seq<StereoFrame>, drop0: nat) returns (queue: seq<StereoFrame>, drop: nat)
    ensures var dropped := MinInt(drop0, |queue0|);
            queue == queue0[dropped..] && drop == drop0 - dropped
  {
    queue, drop := queue0, drop0;
    while drop > 0 && |queue| > 0
      invariant drop <= drop0 && drop0 - drop <= |queue0|
      invariant queue == queue0[drop0 - drop..]
    {
      queue := queue[1..];
      drop := drop - 1;
    }
  }

  method FillOutput(queue0: seq<StereoFrame>, insert0: nat, n: nat)
    returns (queue: seq<StereoFrame>, output: seq<StereoFrame>, insert: nat)
    ensures output == Fill(queue0, insert0, n)
    ensures insert == insert0 - MinInt(insert0, n)
    ensures queue == queue0[MinInt(n - MinInt(insert0, n), |queue0|)..]
  {
    queue, output, insert := queue0, [], insert0;
    for i := 0 to n
      invariant output == Fill(queue0, insert0, i)
      invariant insert == insert0 - MinInt(insert0, i)
      invariant queue == queue0[MinInt(i - MinInt(insert0, i), |queue0|)..]
    {
      FillStep(queue0, insert0, i);
      if insert > 0 {
        output := output + [Silence];
        insert := insert - 1;
        continue;
      }
      if |queue| > 0 {
        output := output + [queue[0]];
        queue := queue[1..];
      } else {
        output := output + [Silence];
      }
    }
  }

  lemma FillStep(queue: seq<StereoFrame>, insert: nat, i: nat)
    ensures var passed := i - insert;
            Fill(queue, insert, i + 1)
              == Fill(queue, insert, i) + [if 0 <= passed < |queue| then queue[passed] else Silence]
  {
  }

  predicate ShouldLeaveNegativePath(delayMs: real, plan: SkewPlan, pendingFrames: nat, negativePathActive: bool) {
    negativePathActive && delayMs >= 0.0 && plan.appliedEarlyMs == 0.0
    && plan.drop == 0 && plan.insert == 0 && pendingFrames == 0
  }
}
