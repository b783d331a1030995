/** Fragmenting and reassembling is the identity for every request, whatever else shares the
    channel. */
module SfuReassembly {
  import opened Js
  import opened BlockProtocol
  import opened SfuTransport

  function Run(s: ViewerState, es: seq<Event>): ViewerState
    decreases |es|
  {
    if es == [] then s else Run(Handle(s, es[0]), es[1..])
  }

  /** The events about one request, in order. */
  predicate About(e: Event, id: Id) {
    match e
    case Deliver(m) => Concerns(m) == Some(id)
    case TimesOut(i) => i == id
  }

  function Projection(es: seq<Event>, id: Id): seq<Event>
    decreases |es|
  {
    if es == [] then [] else (if About(es[0], id) then [es[0]] else []) + Projection(es[1..], id)
  }

  function Outcomes(resolved: seq<(Id, Outcome)>, id: Id): seq<Outcome>
    decreases |resolved|
  {
    if resolved == [] then []
    else
      var last := resolved[|resolved| - 1];
      Outcomes(resolved[..|resolved| - 1], id) + if last.0 == id then [last.1] else []
  }

  /** The part of the viewer's state that belongs to one request. */
  datatype Slice = Slice(block: Option<Block>, outcomes: seq<Outcome>)

  function SliceOf(s: ViewerState, id: Id): Slice {
    Slice(if id in s.pending then Some(s.pending[id]) else None, Outcomes(s.resolved, id))
  }

  function HandleSlice(l: Slice, e: Event): Slice {
    if l.block.None? then l
    else match e
      case TimesOut(_) => Slice(None, l.outcomes + [None])
      case Deliver(m) =>
        match React(l.block.value, m)
        case Keep(b) => l.(block := Some(b))
        case Resolve(o) => Slice(None, l.outcomes + [o])
  }

  function RunSlice(l: Slice, es: seq<Event>): Slice
    decreases |es|
  {
    if es == [] then l else RunSlice(HandleSlice(l, es[0]), es[1..])
  }

  lemma StepIsLocal(s: ViewerState, e: Event, id: Id)
    ensures SliceOf(Handle(s, e), id) == if About(e, id) then HandleSlice(SliceOf(s, id), e) else SliceOf(s, id)
  {
    var next := Handle(s, e).resolved;
    if next != s.resolved {
      assert next[..|next| - 1] == s.resolved;
    }
  }

  lemma {:induction false} ProjectionIsAbout(es: seq<Event>, id: Id)
    ensures forall e | e in Projection(es, id) :: About(e, id)
    decreases |es|
  {
    if es != [] {
      ProjectionIsAbout(es[1..], id);
    }
  }

  /** Requests do not disturb each other: what happens to one is decided by the events about
      it, in their order, however the events of others are interleaved. */
  lemma {:induction false} RunIsLocal(s: ViewerState, es: seq<Event>, id: Id)
    ensures SliceOf(Run(s, es), id) == RunSlice(SliceOf(s, id), Projection(es, id))
    decreases |es|
  {
    if es != [] {
      var next := Handle(s, es[0]);
      StepIsLocal(s, es[0], id);
      RunIsLocal(next, es[1..], id);
      if About(es[0], id) {
        assert Projection(es, id)[1..] == Projection(es[1..], id);
      } else {
        assert Projection(es, id) == Projection(es[1..], id);
      }
    }
  }

  function Deliveries(ms: seq<Msg>): seq<Event> {
    seq(|ms|, i requires 0 <= i < |ms| => Deliver(ms[i]))
  }

  /** The messages of an answer all carry its id. */
  lemma {:induction false} FramesConcern(id: Id, bytes: seq<Byte>)
    requires |id| == REQUEST_ID_LENGTH
    ensures forall m | m in Frames(id, bytes) :: Concerns(m) == Some(id)
    decreases |bytes|
  {
    if bytes != [] {
      var n := MinInt(MAX_FRAME_PAYLOAD, |bytes|);
      assert (id + bytes[..n])[..REQUEST_ID_LENGTH] == id;
      FramesConcern(id, bytes[n..]);
    }
  }

  /** A request half way: the buffer holds the first `k` bytes and waits for the rest. */
  predicate Holds(b: Block, bytes: seq<Byte>, k: nat) {
    b.buffer.Some? && |b.buffer.value| == |bytes| && b.received == k < |bytes| && b.buffer.value[..k] == bytes[..k]
  }

  lemma FrameStep(b: Block, bytes: seq<Byte>, k: nat, id: Id)
    requires |id| == REQUEST_ID_LENGTH && Holds(b, bytes, k)
    ensures var end := MinInt(k + MAX_FRAME_PAYLOAD, |bytes|);
            var m := Frame(id + bytes[k..end]);
            Concerns(m) == Some(id)
            && (if end == |bytes| then React(b, m) == Resolve(Some(bytes))
                else React(b, m).Keep? && Holds(React(b, m).block, bytes, end))
  {
    var end := MinInt(k + MAX_FRAME_PAYLOAD, |bytes|);
    var m := Frame(id + bytes[k..end]);
    assert m.bytes[..REQUEST_ID_LENGTH] == id && m.bytes[REQUEST_ID_LENGTH..] == bytes[k..end];
    var filled := b.buffer.value[..k] + bytes[k..end] + b.buffer.value[end..];
    assert filled[..end] == bytes[..end];
    if end == |bytes| {
      assert filled == bytes;
    }
  }

  /** What a request can look like along its own answer, timeouts included: still waiting for
      the messages from position `i` on, or finished once, with its own bytes or with nothing. */
  ghost predicate OnTrack(l: Slice, bytes: seq<Byte>, i: nat) {
    if l.block.None? then
      |l.outcomes| == 1 && (l.outcomes[0] == None || l.outcomes[0] == Some(bytes))
    else
      l.outcomes == []
      && (if i == 0 then l.block.value == Block(None, 0)
          else MAX_FRAME_PAYLOAD * (i - 1) < |bytes| && Holds(l.block.value, bytes, MAX_FRAME_PAYLOAD * (i - 1)))
  }

  lemma {:induction false} FrameAt(id: Id, bytes: seq<Byte>, i: nat)
    requires i < |Frames(id, bytes)|
    ensures MAX_FRAME_PAYLOAD * i < |bytes|
    ensures Frames(id, bytes)[i]
         == Frame(id + bytes[MAX_FRAME_PAYLOAD * i..MinInt(MAX_FRAME_PAYLOAD * i + MAX_FRAME_PAYLOAD, |bytes|)])
    ensures i == |Frames(id, bytes)| - 1 <==> MAX_FRAME_PAYLOAD * i + MAX_FRAME_PAYLOAD >= |bytes|
    decreases i
  {
    var n := MinInt(MAX_FRAME_PAYLOAD, |bytes|);
    var rest := bytes[n..];
    assert Frames(id, bytes) == [Frame(id + bytes[..n])] + Frames(id, rest);
    if i == 0 {
      assert bytes[0..n] == bytes[..n];
    } else {
      FrameAt(id, rest, i - 1);
      var k := MAX_FRAME_PAYLOAD * (i - 1);
      assert n == MAX_FRAME_PAYLOAD;
      assert rest[k..MinInt(k + MAX_FRAME_PAYLOAD, |rest|)]
          == bytes[n + k..MinInt(n + k + MAX_FRAME_PAYLOAD, |bytes|)];
    }
  }

  /** The messages of a served block, for a request id of the right length. */
  function BlockMessages(id: Id, bytes: seq<Byte>): seq<Msg> {
    [Meta(Some(id), true, Some(|bytes|))] + Frames(id, bytes)
  }

  lemma MetaStep(l: Slice, id: Id, bytes: seq<Byte>)
    requires OnTrack(l, bytes, 0)
    ensures var l' := HandleSlice(l, Deliver(Meta(Some(id), true, Some(|bytes|))));
            && OnTrack(l', bytes, 1)
            && (l.block.Some? && bytes == [] ==> l' == Slice(None, [Some(bytes)]))
            && (l.block.Some? && bytes != [] ==> l'.block.Some?)
  {
    if bytes != [] && l.block.Some? {
      assert Zeros(|bytes|)[..0] == bytes[..0];
    }
  }

  lemma FrameDelivery(l: Slice, id: Id, bytes: seq<Byte>, i: nat)
    requires |id| == REQUEST_ID_LENGTH && i < |Frames(id, bytes)| && OnTrack(l, bytes, i + 1)
    ensures var l' := HandleSlice(l, Deliver(Frames(id, bytes)[i]));
            && OnTrack(l', bytes, i + 2)
            && (l.block.Some? && i == |Frames(id, bytes)| - 1 ==> l' == Slice(None, [Some(bytes)]))
            && (l.block.Some? && i < |Frames(id, bytes)| - 1 ==> l'.block.Some?)
  {
    hide React;
    FrameAt(id, bytes, i);
    if l.block.Some? {
      FrameStep(l.block.value, bytes, MAX_FRAME_PAYLOAD * i, id);
    }
  }

  lemma DeliverStep(l: Slice, id: Id, bytes: seq<Byte>, i: nat)
    requires |id| == REQUEST_ID_LENGTH && i < |BlockMessages(id, bytes)| && OnTrack(l, bytes, i)
    ensures var m := BlockMessages(id, bytes)[i];
            && OnTrack(HandleSlice(l, Deliver(m)), bytes, i + 1)
            && (l.block.Some? && i == |BlockMessages(id, bytes)| - 1 ==> HandleSlice(l, Deliver(m)) == Slice(None, [Some(bytes)]))
            && (l.block.Some? && i < |BlockMessages(id, bytes)| - 1 ==> HandleSlice(l, Deliver(m)).block.Some?)
  {
    hide React, OnTrack, HandleSlice;
    if i == 0 {
      MetaStep(l, id, bytes);
      assert bytes == [] <==> |Frames(id, bytes)| == 0;
    } else {
      FrameDelivery(l, id, bytes, i - 1);
    }
  }

  /** The deliveries of an event list, in order. */
  function Messages(es: seq<Event>): seq<Msg>
    decreases |es|
  {
    if es == [] then [] else (if es[0].Deliver? then [es[0].msg] else []) + Messages(es[1..])
  }

  predicate HasTimeout(es: seq<Event>) {
    exists e :: e in es && e.TimesOut?
  }

  lemma {:induction false} SliceFollows(l: Slice, id: Id, bytes: seq<Byte>, i: nat, es: seq<Event>)
    requires |id| == REQUEST_ID_LENGTH && i <= |BlockMessages(id, bytes)| && OnTrack(l, bytes, i)
    requires forall e | e in es :: About(e, id)
    requires Messages(es) <= BlockMessages(id, bytes)[i..]
    ensures OnTrack(RunSlice(l, es), bytes, i + |Messages(es)|)
    ensures !HasTimeout(es) && l.block.Some? && 0 < |Messages(es)| == |BlockMessages(id, bytes)| - i ==>
              RunSlice(l, es) == Slice(None, [Some(bytes)])
    decreases |es|
  {
    if es != [] {
      assert es[0] in es;
      var next := HandleSlice(l, es[0]);
      if es[0].Deliver? {
        assert Messages(es)[0] == es[0].msg == BlockMessages(id, bytes)[i..][0] == BlockMessages(id, bytes)[i];
        assert Messages(es)[1..] == Messages(es[1..]);
        assert BlockMessages(id, bytes)[i..][1..] == BlockMessages(id, bytes)[i + 1..];
        DeliverStep(l, id, bytes, i);
        SliceFollows(next, id, bytes, i + 1, es[1..]);
        if !HasTimeout(es) && l.block.Some? && |Messages(es)| == |BlockMessages(id, bytes)| - i {
          assert !HasTimeout(es[1..]);
          if |Messages(es)| == 1 {
            Finished(next, es[1..]);
          }
        }
      } else {
        assert HasTimeout(es);
        SliceFollows(next, id, bytes, i, es[1..]);
      }
    }
  }

  /** Nothing changes a finished request. */
  lemma {:induction false} Finished(l: Slice, es: seq<Event>)
    requires l.block.None?
    ensures RunSlice(l, es) == l
    decreases |es|
  {
    if es != [] {
      Finished(HandleSlice(l, es[0]), es[1..]);
    }
  }

  /** A freshly sent request. */
  ghost predicate JustSent(s: ViewerState, id: Id) {
    SliceOf(s, id) == Slice(Some(Block(None, 0)), [])
  }

  /** Every request whose messages arrive completely, in their own order and before it times
      out, is resolved exactly once, with the bytes that were sent, whatever other traffic
      shares the channel. */
  lemma ReassemblyIsIdentity(s: ViewerState, es: seq<Event>, id: Id, bytes: seq<Byte>)
    requires |id| == REQUEST_ID_LENGTH && JustSent(s, id)
    requires Projection(es, id) == Deliveries(BlockMessages(id, bytes))
    ensures SliceOf(Run(s, es), id) == Slice(None, [Some(bytes)])
  {
    RunIsLocal(s, es, id);
    ProjectionIsAbout(es, id);
    MessagesOfDeliveries(BlockMessages(id, bytes));
    assert BlockMessages(id, bytes)[0..] == BlockMessages(id, bytes);
    SliceFollows(SliceOf(s, id), id, bytes, 0, Projection(es, id));
  }

  /** With timeouts and lost tails allowed a request is resolved at most once, and never with
      anything but its own bytes. */
  lemma NeverOthersBytes(s: ViewerState, es: seq<Event>, id: Id, bytes: seq<Byte>)
    requires |id| == REQUEST_ID_LENGTH && JustSent(s, id)
    requires Messages(Projection(es, id)) <= BlockMessages(id, bytes)
    ensures var outcomes := SliceOf(Run(s, es), id).outcomes;
            outcomes == [] || outcomes == [None] || outcomes == [Some(bytes)]
  {
    RunIsLocal(s, es, id);
    ProjectionIsAbout(es, id);
    assert BlockMessages(id, bytes)[0..] == BlockMessages(id, bytes);
    SliceFollows(SliceOf(s, id), id, bytes, 0, Projection(es, id));
  }

  lemma {:induction false} MessagesOfDeliveries(ms: seq<Msg>)
    ensures Messages(Deliveries(ms)) == ms
    decreases |ms|
  {
    if ms != [] {
      assert Deliveries(ms)[1..] == Deliveries(ms[1..]);
      MessagesOfDeliveries(ms[1..]);
    }
  }

  // ---------------------------------------------------------------- provider to viewer

  /** A request together with how reading its range ends. */
  datatype Job = Job(request: RangeRequest, read: ReadOutcome)

  function JobAnswer(file: Option<seq<Byte>>, j: Job): seq<Msg> {
    Answer(j.request.id, Serve(file, j.request, true, false, j.read))
  }

  /** What the provider's queue puts on the channel. */
  function Answers(file: Option<seq<Byte>>, jobs: seq<Job>): seq<Msg>
    decreases |jobs|
  {
    if jobs == [] then [] else JobAnswer(file, jobs[0]) + Answers(file, jobs[1..])
  }

  lemma Regroup(a: seq<Msg>, b: seq<Msg>, c: seq<Msg>)
    ensures a + b + c == a + (b + c)
  {
  }

  /** The provider's queue serves its requests one after the other, in order. */
  method ServeQueue(producer: Producer, file: Option<seq<Byte>>, jobs: seq<Job>) returns (complete: bool)
    modifies producer
    ensures complete ==> producer.sent == old(producer.sent) + Answers(file, jobs)
    ensures old(producer.sent) <= producer.sent
  {
    assert jobs[0..] == jobs;
    for i := 0 to |jobs|
      invariant old(producer.sent) <= producer.sent
      invariant producer.sent + Answers(file, jobs[i..]) == old(producer.sent) + Answers(file, jobs)
    {
      ghost var before := producer.sent;
      var done := ServeBlockRequest(producer, file, jobs[i].request, jobs[i].read);
      if !done {
        return false;
      }
      assert jobs[i..][1..] == jobs[i + 1..];
      Regroup(before, JobAnswer(file, jobs[i]), Answers(file, jobs[i + 1..]));
    }
    return true;
  }

  lemma {:induction false} ProjectionAppends(a: seq<Event>, b: seq<Event>, id: Id)
    ensures Projection(a + b, id) == Projection(a, id) + Projection(b, id)
    decreases |a|
  {
    if a == [] {
      assert a + b == b;
    } else {
      assert (a + b)[1..] == a[1..] + b;
      ProjectionAppends(a[1..], b, id);
    }
  }

  lemma {:induction false} ProjectionOfUniform(ms: seq<Msg>, from: Id, id: Id)
    requires forall m | m in ms :: Concerns(m) == Some(from)
    ensures Projection(Deliveries(ms), id) == if from == id then Deliveries(ms) else []
    decreases |ms|
  {
    if ms != [] {
      assert ms[0] in ms;
      assert Deliveries(ms)[1..] == Deliveries(ms[1..]);
      ProjectionOfUniform(ms[1..], from, id);
      assert Deliveries(ms) == [Deliver(ms[0])] + Deliveries(ms[1..]);
    } else {
      assert Deliveries(ms) == [];
    }
  }

  lemma AnswerProjects(file: Option<seq<Byte>>, j: Job, id: Id)
    requires j.request.id.Some?
    ensures Projection(Deliveries(JobAnswer(file, j)), id)
         == if j.request.id.value == id then Deliveries(JobAnswer(file, j)) else []
  {
    ServeIsExact(file, j.request, true, false, j.read);
    var r := Serve(file, j.request, true, false, j.read);
    if r.Served? {
      FramesConcern(j.request.id.value, r.bytes);
    }
    ProjectionOfUniform(JobAnswer(file, j), j.request.id.value, id);
  }

  predicate DistinctIds(jobs: seq<Job>) {
    (forall i | 0 <= i < |jobs| :: jobs[i].request.id.Some?)
    && forall i, j | 0 <= i < j < |jobs| :: jobs[i].request.id != jobs[j].request.id
  }

  lemma {:induction false} AnswersProject(file: Option<seq<Byte>>, jobs: seq<Job>, k: nat)
    requires k < |jobs| && DistinctIds(jobs)
    ensures Projection(Deliveries(Answers(file, jobs)), jobs[k].request.id.value) == Deliveries(JobAnswer(file, jobs[k]))
    decreases |jobs|
  {
    var id := jobs[k].request.id.value;
    var first, rest := JobAnswer(file, jobs[0]), Answers(file, jobs[1..]);
    assert Deliveries(first + rest) == Deliveries(first) + Deliveries(rest);
    ProjectionAppends(Deliveries(first), Deliveries(rest), id);
    AnswerProjects(file, jobs[0], id);
    if k == 0 {
      NoneProject(file, jobs[1..], id);
    } else {
      AnswersProject(file, jobs[1..], k - 1);
    }
  }

  lemma {:induction false} NoneProject(file: Option<seq<Byte>>, jobs: seq<Job>, id: Id)
    requires forall i | 0 <= i < |jobs| :: jobs[i].request.id.Some? && jobs[i].request.id != Some(id)
    ensures Projection(Deliveries(Answers(file, jobs)), id) == []
    decreases |jobs|
  {
    if jobs == [] {
      assert Deliveries([]) == [];
    } else {
      var first, rest := JobAnswer(file, jobs[0]), Answers(file, jobs[1..]);
      assert Deliveries(first + rest) == Deliveries(first) + Deliveries(rest);
      ProjectionAppends(Deliveries(first), Deliveries(rest), id);
      AnswerProjects(file, jobs[0], id);
      NoneProject(file, jobs[1..], id);
    }
  }

  /** End to end: the provider answers any list of requests with distinct ids, of any viewers;
      a viewer that has sent some of them gets for each exactly one outcome, the bytes of its
      own range, or nothing when the range could not be served. */
  lemma EveryRequestGetsItsRange(file: Option<seq<Byte>>, jobs: seq<Job>, s: ViewerState, k: nat)
    requires k < |jobs| && DistinctIds(jobs) && JustSent(s, jobs[k].request.id.value)
    ensures var r := jobs[k].request;
            SliceOf(Run(s, Deliveries(Answers(file, jobs))), r.id.value).outcomes
              == (match Serve(file, r, true, false, jobs[k].read)
                  case Served(bytes) => [Some(bytes)]
                  case Refused(_) => [None])
  {
    var r := jobs[k].request;
    var id := r.id.value;
    var es := Deliveries(Answers(file, jobs));
    AnswersProject(file, jobs, k);
    ServeIsExact(file, r, true, false, jobs[k].read);
    match Serve(file, r, true, false, jobs[k].read)
    case Served(bytes) =>
      assert JobAnswer(file, jobs[k]) == BlockMessages(id, bytes);
      ReassemblyIsIdentity(s, es, id, bytes);
    case Refused(_) =>
      RunIsLocal(s, es, id);
      var m := Meta(Some(id), false, None);
      assert Deliveries([m]) == [Deliver(m)];
      assert RunSlice(SliceOf(s, id), [Deliver(m)]) == HandleSlice(SliceOf(s, id), Deliver(m)) by {
        assert [Deliver(m)][1..] == [];
      }
  }
}
