/** The local audio delay graph: which path is connected, the queue of the negative path, and
    what happens to every audio frame over a whole run. */
module AudioDelayGraph {
  import opened Js
  import opened AudioSkew

  const AUDIO_DELAY_MIN_MS: real := -2000.0
  const AUDIO_DELAY_MAX_MS: real := 2000.0
  const PENDING_CAPACITY_FRAMES: nat := 48000 * 3

  function ClampDelayMs(ms: Num): real {
    if !ms.Fin? then 0.0 else Min(AUDIO_DELAY_MAX_MS, Max(AUDIO_DELAY_MIN_MS, ms.value))
  }

  /** The delay in force is the nearest one in range, so exactly those in range are kept, and 0
      for what is no number. */
  lemma ClampIsNearest(ms: Num, other: real)
    ensures var d := ClampDelayMs(ms);
            && -2000.0 <= d <= 2000.0
            && (ms.Fin? && -2000.0 <= other <= 2000.0 ==> Abs(ms.value - d) <= Abs(ms.value - other))
            && (ms.Fin? ==> (d == ms.value <==> -2000.0 <= ms.value <= 2000.0))
            && (!ms.Fin? ==> d == 0.0)
  {
  }

  /** The history of the negative path: what came in, what went out, the input positions of
      the frames played or still queued, the output positions of the frames played, and how
      many frames met which fate. */
  datatype Record = Record(input: seq<StereoFrame>, output: seq<StereoFrame>, played: seq<StereoFrame>,
                           kept: seq<nat>, at: seq<nat>,
                           dropped: nat, inserted: nat, underrun: nat, trimmed: nat, changes: nat)

  const NoRecord: Record := Record([], [], [], [], [], 0, 0, 0, 0, 0)

  datatype Graph = Graph(delayMs: real, plan: SkewPlan, active: bool, pending: seq<StereoFrame>, rec: Record)

  function EarlyMs(delayMs: real): real {
    Max(0.0, -delayMs)
  }

  function Leave(g: Graph): Graph {
    if ShouldLeaveNegativePath(g.delayMs, g.plan, |g.pending|, g.active) then g.(active := false) else g
  }

  function Retarget(g: Graph, earlyMs: real, sampleRate: real): Graph {
    var plan := PlanEarlySkewChange(g.plan, earlyMs, sampleRate);
    g.(plan := plan, rec := g.rec.(changes := g.rec.changes + if plan.appliedEarlyMs != g.plan.appliedEarlyMs then 1 else 0))
  }

  function Attach(initialDelayMs: Num, sampleRate: real): Graph {
    var delay := ClampDelayMs(initialDelayMs);
    var g := Graph(delay, SkewPlan(0.0, 0, 0), delay < 0.0, [], NoRecord);
    if delay < 0.0 then Retarget(g, EarlyMs(delay), sampleRate) else g
  }

  function SetDelay(g: Graph, nextDelayMs: Num, sampleRate: real): Graph {
    var next := ClampDelayMs(nextDelayMs);
    if next == g.delayMs then g
    else
      var early := EarlyMs(next);
      Leave(Retarget(g.(delayMs := next, active := g.active || early > 0.0), early, sampleRate))
  }

  function TrimCount(queued: nat): nat {
    if queued > PENDING_CAPACITY_FRAMES then queued - PENDING_CAPACITY_FRAMES else 0
  }

  /** Positions `n`, `n + 1`, ... of freshly arrived frames. */
  function Positions(n: nat, count: nat): (at: seq<nat>)
    ensures |at| == count
  {
    seq(count, i requires 0 <= i < count => n + i)
  }

  /** Forget the first `count` queued frames. */
  function CutKept(kept: seq<nat>, played: nat, count: nat): (rest: seq<nat>)
    requires played + count <= |kept|
    ensures |rest| == |kept| - count
  {
    kept[..played] + kept[played + count..]
  }

  /** Bound the queue before a callback. */
  function Trim(g: Graph): (t: Graph)
    requires |g.rec.kept| == |g.rec.played| + |g.pending|
    ensures |t.rec.kept| == |t.rec.played| + |t.pending|
  {
    var cut := TrimCount(|g.pending|);
    g.(pending := g.pending[cut..],
       rec := g.rec.(kept := CutKept(g.rec.kept, |g.rec.played|, cut), trimmed := g.rec.trimmed + cut))
  }

  /** One quantum through the queue. */
  function Process(g: Graph, frames: seq<StereoFrame>): (t: Graph)
    requires |g.rec.kept| == |g.rec.played| + |g.pending|
    ensures |t.rec.kept| == |t.rec.played| + |t.pending|
  {
    var r := g.rec;
    var s := SplitQuantum(|g.pending| + |frames|, g.plan.drop, g.plan.insert, |frames|);
    var p := Quantum(frames, g.pending, g.plan.drop, g.plan.insert, |frames|);
    var queue := (g.pending + frames)[s.dropped..];
    g.(pending := p.pending,
       plan := g.plan.(drop := p.drop, insert := p.insert),
       rec := Record(r.input + frames, r.output + p.output, r.played + queue[..s.passed],
                     CutKept(r.kept + Positions(|r.input|, |frames|), |r.played|, s.dropped),
                     r.at + Positions(|r.output| + s.inserted, s.passed),
                     r.dropped + s.dropped, r.inserted + s.inserted,
                     r.underrun + |frames| - s.inserted - s.passed, r.trimmed, r.changes))
  }

  /** One audio callback. */
  function Audio(g: Graph, frames: seq<StereoFrame>): Graph
    requires |g.rec.kept| == |g.rec.played| + |g.pending|
  {
    Process(Trim(g), frames)
  }

  class DelayGraph {
    const sampleRate: real
    var delayMs: real
    var delayNodeSec: real
    var plan: SkewPlan
    var negativePathActive: bool
    var hasProcessor: bool
    var pending: seq<StereoFrame>
    var disposed: bool
    ghost var rec: Record

    ghost function State(): Graph
      reads this
    {
      Graph(delayMs, plan, negativePathActive, pending, rec)
    }

    /** The processor exists exactly while the negative path is connected, and the delay node
        holds the positive part of the delay. */
    ghost predicate Valid()
      reads this
    {
      && (disposed || hasProcessor == negativePathActive)
      && delayNodeSec == Max(0.0, delayMs) / 1000.0
      && |rec.kept| == |rec.played| + |pending|
    }

    constructor (initialDelayMs: Num, sampleRate: real)
      ensures Valid() && this.sampleRate == sampleRate && !disposed
      ensures State() == Attach(initialDelayMs, sampleRate)
    {
      this.sampleRate, disposed := sampleRate, false;
      var delay := ClampDelayMs(initialDelayMs);
      delayMs, delayNodeSec := delay, Max(0.0, delay) / 1000.0;
      plan, pending, rec := SkewPlan(0.0, 0, 0), [], NoRecord;
      negativePathActive, hasProcessor := delay < 0.0, delay < 0.0;
      new;
      if delay < 0.0 {
        SyncEarlySkew(EarlyMs(delay));
      }
    }

    method SyncEarlySkew(targetEarlyMs: real)
      modifies `plan, `rec
      ensures plan == Retarget(old(State()), targetEarlyMs, sampleRate).plan
      ensures rec == Retarget(old(State()), targetEarlyMs, sampleRate).rec
    {
      var next := PlanEarlySkewChange(plan, targetEarlyMs, sampleRate);
      rec := rec.(changes := rec.changes + if next.appliedEarlyMs != plan.appliedEarlyMs then 1 else 0);
      plan := next;
    }

    /** Back to the plain delay node once nothing is left to do; nothing queued is lost. */
    method MaybeLeaveNegativePath()
      requires Valid() && !disposed
      modifies `negativePathActive, `hasProcessor
      ensures Valid() && State() == Leave(old(State()))
      ensures old(negativePathActive) && !negativePathActive ==> pending == []
    {
      if !ShouldLeaveNegativePath(delayMs, plan, |pending|, negativePathActive) {
        return;
      }
      negativePathActive := false;
      hasProcessor := false;
    }

    method SetDelayMs(nextDelayMs: Num)
      requires Valid() && !disposed
      modifies this
      ensures Valid() && !disposed && State() == SetDelay(old(State()), nextDelayMs, sampleRate)
    {
      var next := ClampDelayMs(nextDelayMs);
      if next == delayMs {
        return;
      }
      delayMs := next;
      var early := EarlyMs(delayMs);
      if early > 0.0 && !negativePathActive {
        hasProcessor := true;
        negativePathActive := true;
      }
      delayNodeSec := Max(0.0, delayMs) / 1000.0;
      SyncEarlySkew(early);
      MaybeLeaveNegativePath();
    }

    /** The processor's callback: as many frames out as in. */
    method OnAudioProcess(frames: seq<StereoFrame>) returns (output: seq<StereoFrame>)
      requires Valid() && hasProcessor && !disposed
      modifies `pending, `plan, `rec
      ensures Valid() && State() == Audio(old(State()), frames)
      ensures |output| == |frames| && rec.output == old(rec.output) + output
    {
      hide Fill, CutKept, Positions;
      TrimPending();
      rec := Process(State(), frames).rec;
      var p := ProcessSkewQuantum(frames, pending, plan.drop, plan.insert, |frames|);
      pending := p.pending;
      plan := plan.(drop := p.drop, insert := p.insert);
      output := p.output;
    }

    method TrimPending()
      requires Valid()
      modifies `pending, `rec
      ensures Valid() && State() == Trim(old(State()))
    {
      rec := Trim(State()).rec;
      if |pending| > PENDING_CAPACITY_FRAMES {
        pending := pending[|pending| - PENDING_CAPACITY_FRAMES..];
      }
    }

    method Dispose()
      requires Valid()
      modifies `pending, `hasProcessor, `disposed, `rec
      ensures disposed && !hasProcessor && pending == []
    {
      hasProcessor := false;
      disposed := true;
      pending := [];
    }
  }
}
