/** The peer-to-peer block path: a meta message and a binary message per request on one
    ordered channel, paired by position alone. */
module WebrtcTransport {
  import opened Js
  import opened BlockProtocol

  datatype Msg = Meta(id: Option<Id>, ok: bool) | Binary(bytes: seq<Byte>) | Garbage

  type Outcome = Option<seq<Byte>>

  datatype Pending = Pending(id: Id, expectBinary: bool)

  /** The viewer's pending table in insertion order, and what requests resolved with. */
  datatype Viewer = Viewer(pending: seq<Pending>, resolved: seq<(Id, Outcome)>)

  function IndexOf(ps: seq<Pending>, id: Id): (i: nat)
    ensures i <= |ps|
    ensures i < |ps| ==> ps[i].id == id
    ensures forall j | 0 <= j < i :: ps[j].id != id
    decreases |ps|
  {
    if ps == [] then 0 else if ps[0].id == id then 0 else 1 + IndexOf(ps[1..], id)
  }

  function Expecting(ps: seq<Pending>): (i: nat)
    ensures i <= |ps|
    ensures i < |ps| ==> ps[i].expectBinary
    ensures forall j | 0 <= j < i :: !ps[j].expectBinary
    decreases |ps|
  {
    if ps == [] then 0 else if ps[0].expectBinary then 0 else 1 + Expecting(ps[1..])
  }

  function Resolve(v: Viewer, i: nat, outcome: Outcome): Viewer
    requires i < |v.pending|
  {
    Viewer(v.pending[..i] + v.pending[i + 1..], v.resolved + [(v.pending[i].id, outcome)])
  }

  function Receive(v: Viewer, m: Msg): Viewer {
    match m
    case Meta(id, ok) =>
      if id.None? || IndexOf(v.pending, id.value) == |v.pending| then v
      else
        var i := IndexOf(v.pending, id.value);
        if !ok then Resolve(v, i, None) else v.(pending := v.pending[i := Pending(id.value, true)])
    case Binary(bytes) =>
      var i := Expecting(v.pending);
      if i == |v.pending| then v else Resolve(v, i, Some(bytes))
    case Garbage => v
  }

  function TimeOut(v: Viewer, id: Id): Viewer {
    var i := IndexOf(v.pending, id);
    if i == |v.pending| then v else Resolve(v, i, None)
  }

  /** The viewer's side of a wired channel. */
  class ViewerPeer {
    var pending: seq<Pending>
    var resolved: seq<(Id, Outcome)>

    constructor ()
      ensures State() == Viewer([], [])
    {
      pending, resolved := [], [];
    }

    function State(): Viewer
      reads this
    {
      Viewer(pending, resolved)
    }

    method Begin(id: Id)
      modifies this
      ensures State() == Viewer(old(pending) + [Pending(id, false)], old(resolved))
    {
      pending := pending + [Pending(id, false)];
    }

    method Finish(i: nat, outcome: Outcome)
      requires i < |pending|
      modifies this
      ensures State() == Resolve(old(State()), i, outcome)
    {
      resolved := resolved + [(pending[i].id, outcome)];
      pending := pending[..i] + pending[i + 1..];
    }

    method OnTimeout(id: Id)
      modifies this
      ensures State() == TimeOut(old(State()), id)
    {
      var i := IndexOf(pending, id);
      if i < |pending| {
        Finish(i, None);
      }
    }

    method OnMessage(m: Msg)
      modifies this
      ensures State() == Receive(old(State()), m)
    {
      match m
      case Garbage =>
      case Meta(id, ok) =>
        if id.None? {
          return;
        }
        var i := IndexOf(pending, id.value);
        if i == |pending| {
          return;
        }
        if ok {
          pending := pending[i := Pending(id.value, true)];
        } else {
          Finish(i, None);
        }
      case Binary(bytes) =>
        var i := 0;
        while i < |pending|
          invariant 0 <= i <= |pending|
          invariant pending == old(pending) && resolved == old(resolved)
          invariant forall j | 0 <= j < i :: !pending[j].expectBinary
        {
          if pending[i].expectBinary {
            Finish(i, Some(bytes));
            return;
          }
          i := i + 1;
        }
    }
  }

  /** What one request puts on the channel: the two sends of a served one are adjacent. */
  function Answer(id: Id, r: ServeResult): seq<Msg> {
    match r
    case Served(bytes) => [Meta(Some(id), true), Binary(bytes)]
    case Refused(_) => [Meta(Some(id), false)]
  }

  class Channel {
    var sent: seq<Msg>

    constructor ()
      ensures sent == []
    {
      sent := [];
    }

    method Send(m: Msg)
      modifies this
      ensures sent == old(sent) + [m]
    {
      sent := sent + [m];
    }
  }

  /** The provider's handler once the range has been read. */
  method AnswerRequest(channel: Channel, file: Option<seq<Byte>>, id: Id, r: RangeRequest, read: ReadOutcome)
    modifies channel
    ensures channel.sent == old(channel.sent) + Answer(id, Serve(file, r, false, false, read))
  {
    match Serve(file, r, false, false, read)
    case Refused(_) =>
      channel.Send(Meta(Some(id), false));
    case Served(bytes) =>
      channel.Send(Meta(Some(id), true));
      channel.Send(Binary(bytes));
  }

  // ---------------------------------------------------------------- the two peers together

  /** Requests the provider is still working on, answers in flight, and for the record what
      every answered request was served with, whose timer has fired, and whose meta the
      viewer read last. */
  datatype System = System(viewer: Viewer, outstanding: set<Id>, channel: seq<Msg>,
                           served: map<Id, ServeResult>, expired: set<Id>, afterMeta: Option<Id>)

  const Start: System := System(Viewer([], []), {}, [], map[], {}, None)

  datatype Action =
    | Ask(id: Id)
    | Answered(id: Id, result: ServeResult)
    | Delivered
    | Expired(id: Id)

  /** A request id not used before. */
  predicate Unused(s: System, id: Id) {
    id !in s.outstanding && id !in s.served && IndexOf(s.viewer.pending, id) == |s.viewer.pending|
    && forall r | r in s.viewer.resolved :: r.0 != id
  }

  function Step(s: System, a: Action): System {
    match a
    case Ask(id) =>
      if !Unused(s, id) then s
      else s.(viewer := s.viewer.(pending := s.viewer.pending + [Pending(id, false)]), outstanding := s.outstanding + {id})
    case Answered(id, result) =>
      if id !in s.outstanding then s
      else s.(outstanding := s.outstanding - {id}, channel := s.channel + Answer(id, result),
              served := s.served[id := result])
    case Delivered =>
      if s.channel == [] then s
      else
        var m := s.channel[0];
        s.(viewer := Receive(s.viewer, m), channel := s.channel[1..],
           afterMeta := if m.Meta? && m.ok then m.id else None)
    case Expired(id) =>
      s.(viewer := TimeOut(s.viewer, id), expired := s.expired + {id})
  }

  function Run(s: System, run: seq<Action>): System
    decreases |run|
  {
    if run == [] then s else Run(Step(s, run[0]), run[1..])
  }

  /** What is in flight is a row of whole answers, the first one possibly without its meta. */
  ghost predicate InFlight(channel: seq<Msg>, served: map<Id, ServeResult>, afterMeta: Option<Id>)
    decreases |channel|
  {
    match afterMeta
    case Some(id) =>
      id in served && served[id].Served? && channel != [] && channel[0] == Binary(served[id].bytes)
      && InFlight(channel[1..], served, None)
    case None =>
      channel == []
      || (channel[0].Meta? && channel[0].id.Some? && channel[0].id.value in served
          && channel[0].ok == served[channel[0].id.value].Served?
          && InFlight(channel[1..], served, if channel[0].ok then channel[0].id else None))
  }

  predicate Distinct(v: Viewer) {
    (forall i, j | 0 <= i < j < |v.pending| :: v.pending[i].id != v.pending[j].id)
    && (forall i, j | 0 <= i < j < |v.resolved| :: v.resolved[i].0 != v.resolved[j].0)
    && (forall i, j | 0 <= i < |v.pending| && 0 <= j < |v.resolved| :: v.pending[i].id != v.resolved[j].0)
  }

  /** Bytes a request resolved with are the bytes served for it; nothing is what it gets only
      when it was refused or timed out. */
  predicate OwnBytes(s: System) {
    forall r | r in s.viewer.resolved ::
      if r.1.Some? then r.0 in s.served && s.served[r.0] == Served(r.1.value)
      else r.0 in s.expired || (r.0 in s.served && s.served[r.0].Refused?)
  }

  /** A request still pending has its answer still ahead. */
  ghost predicate Awaited(s: System) {
    forall p | p in s.viewer.pending ::
      p.id in s.outstanding || s.afterMeta == Some(p.id)
      || exists m :: m in s.channel && m.Meta? && m.id == Some(p.id)
  }

  ghost predicate Inv(s: System) {
    && InFlight(s.channel, s.served, s.afterMeta)
    && Distinct(s.viewer)
    && (forall p | p in s.viewer.pending :: p.expectBinary <==> s.afterMeta == Some(p.id))
    && s.outstanding !! s.served.Keys
    && OwnBytes(s) && Awaited(s)
  }

  /** Serving more requests leaves what is in flight as it was. */
  lemma {:induction false} InFlightGrows(channel: seq<Msg>, served: map<Id, ServeResult>, afterMeta: Option<Id>, id: Id, r: ServeResult)
    requires InFlight(channel, served, afterMeta) && id !in served
    ensures InFlight(channel + Answer(id, r), served[id := r], afterMeta)
    decreases |channel|
  {
    var served' := served[id := r];
    if channel == [] {
      assert channel + Answer(id, r) == Answer(id, r);
      if r.Served? {
        assert Answer(id, r)[1..] == [Binary(r.bytes)];
        assert [Binary(r.bytes)][1..] == [];
        assert InFlight([Binary(r.bytes)], served', Some(id));
      } else {
        assert Answer(id, r)[1..] == [];
      }
    } else {
      assert (channel + Answer(id, r))[1..] == channel[1..] + Answer(id, r);
      var next := if afterMeta.Some? then None else if channel[0].ok then channel[0].id else None;
      InFlightGrows(channel[1..], served, next, id, r);
    }
  }

  lemma ResolveKeepsDistinct(v: Viewer, i: nat, outcome: Outcome)
    requires Distinct(v) && i < |v.pending|
    ensures Distinct(Resolve(v, i, outcome))
    ensures forall p | p in Resolve(v, i, outcome).pending :: p in v.pending && p.id != v.pending[i].id
    ensures forall r | r in Resolve(v, i, outcome).resolved :: r in v.resolved || r == (v.pending[i].id, outcome)
  {
    var left, right := v.pending[..i], v.pending[i + 1..];
    var ps := left + right;
    forall j | 0 <= j < |ps|
      ensures ps[j] == v.pending[if j < i then j else j + 1]
    {
    }
  }

  lemma AskKeepsInv(s: System, id: Id)
    requires Inv(s) && Unused(s, id)
    ensures Inv(Step(s, Ask(id)))
  {
    var t := Step(s, Ask(id));
    assert forall i | 0 <= i < |s.viewer.pending| :: s.viewer.pending[i] in s.viewer.pending && s.viewer.pending[i].id != id;
    assert forall i | 0 <= i < |s.viewer.resolved| :: s.viewer.resolved[i] in s.viewer.resolved;
    forall p | p in t.viewer.pending
      ensures p in s.viewer.pending || p == Pending(id, false)
    {
    }
    assert s.afterMeta != Some(id);
  }

  lemma AnsweredKeepsInv(s: System, id: Id, r: ServeResult)
    requires Inv(s) && id in s.outstanding
    ensures Inv(Step(s, Answered(id, r)))
  {
    var t := Step(s, Answered(id, r));
    InFlightGrows(s.channel, s.served, s.afterMeta, id, r);
    forall p | p in t.viewer.pending
      ensures p.id in t.outstanding || t.afterMeta == Some(p.id)
              || exists m :: m in t.channel && m.Meta? && m.id == Some(p.id)
    {
      if p.id == id {
        var m := Answer(id, r)[0];
        assert t.channel[|s.channel|] == m;
      } else if p.id !in s.outstanding && s.afterMeta != Some(p.id) {
        var m :| m in s.channel && m.Meta? && m.id == Some(p.id);
        assert m in t.channel;
      }
    }
  }

  lemma ExpiredKeepsInv(s: System, id: Id)
    requires Inv(s)
    ensures Inv(Step(s, Expired(id)))
  {
    var i := IndexOf(s.viewer.pending, id);
    if i < |s.viewer.pending| {
      ResolveKeepsDistinct(s.viewer, i, None);
    }
  }

  /** The next message belongs to the request whose meta was read last, if there is one. */
  lemma DeliveredKeepsInv(s: System)
    requires Inv(s) && s.channel != []
    ensures Inv(Step(s, Delivered))
  {
    var m := s.channel[0];
    var t := Step(s, Delivered);
    var ps := s.viewer.pending;
    if m.Binary? {
      var i := Expecting(ps);
      if i < |ps| {
        assert ps[i] in ps;
        ResolveKeepsDistinct(s.viewer, i, Some(m.bytes));
      } else {
        assert forall p | p in ps :: !p.expectBinary;
      }
    } else if m.Meta? {
      var i := IndexOf(ps, m.id.value);
      if i < |ps| {
        if !m.ok {
          ResolveKeepsDistinct(s.viewer, i, None);
        } else {
          FlagKeepsDistinct(s.viewer, i);
        }
      } else {
        assert forall p | p in ps :: p.id != m.id.value;
      }
    }
    AwaitedAfterDelivery(s);
  }

  lemma FlagKeepsDistinct(v: Viewer, i: nat)
    requires Distinct(v) && i < |v.pending|
    ensures var ps := v.pending[i := Pending(v.pending[i].id, true)];
            && Distinct(v.(pending := ps))
            && forall p | p in ps :: if p.id == v.pending[i].id then p.expectBinary else p in v.pending
  {
    var ps := v.pending[i := Pending(v.pending[i].id, true)];
    assert forall j | 0 <= j < |ps| :: ps[j].id == v.pending[j].id;
  }

  lemma AwaitedAfterDelivery(s: System)
    requires Inv(s) && s.channel != []
    ensures Awaited(Step(s, Delivered))
  {
    var m := s.channel[0];
    var t := Step(s, Delivered);
    forall p | p in t.viewer.pending
      ensures p.id in t.outstanding || t.afterMeta == Some(p.id)
              || exists n :: n in t.channel && n.Meta? && n.id == Some(p.id)
    {
      var q := PendingBefore(s, p);
      if q.id !in s.outstanding && !(m.Meta? && m.id == Some(q.id)) {
        if s.afterMeta == Some(q.id) {
          assert m.Binary? && q.expectBinary;
          var i := Expecting(s.viewer.pending);
          var j :| 0 <= j < |s.viewer.pending| && s.viewer.pending[j] == q;
          assert s.viewer.pending[i] in s.viewer.pending;
          ResolveKeepsDistinct(s.viewer, i, Some(m.bytes));
        } else {
          var n :| n in s.channel && n.Meta? && n.id == Some(q.id);
          var k :| 0 <= k < |s.channel| && s.channel[k] == n;
          assert t.channel[k - 1] == n;
        }
      } else if m.Meta? && m.id == Some(q.id) && !m.ok {
        var i := IndexOf(s.viewer.pending, q.id);
        var j :| 0 <= j < |s.viewer.pending| && s.viewer.pending[j] == q;
        ResolveKeepsDistinct(s.viewer, i, None);
      }
    }
  }

  /** A request pending after a delivery was pending before it. */
  lemma PendingBefore(s: System, p: Pending) returns (q: Pending)
    requires Inv(s) && s.channel != [] && p in Step(s, Delivered).viewer.pending
    ensures q in s.viewer.pending && q.id == p.id
  {
    var m := s.channel[0];
    var ps := s.viewer.pending;
    var ps' := Step(s, Delivered).viewer.pending;
    var j :| 0 <= j < |ps'| && ps'[j] == p;
    if |ps'| == |ps| {
      q := ps[j];
    } else {
      q := p;
    }
  }

  lemma {:induction false} RunKeepsInv(s: System, run: seq<Action>)
    requires Inv(s)
    ensures Inv(Run(s, run))
    decreases |run|
  {
    if run != [] {
      match run[0] {
        case Ask(id) => if Unused(s, id) { AskKeepsInv(s, id); }
        case Answered(id, r) => if id in s.outstanding { AnsweredKeepsInv(s, id, r); }
        case Delivered => if s.channel != [] { DeliveredKeepsInv(s); }
        case Expired(id) => ExpiredKeepsInv(s, id);
      }
      RunKeepsInv(Step(s, run[0]), run[1..]);
    }
  }

  /** In every run at most one pending request expects a binary message, the next message on
      the channel is then the bytes served for it, every request resolves at most once, and
      one that resolves with bytes gets exactly those served for its own id, one that
      resolves with nothing was refused or timed out. */
  lemma PairingIsSound(run: seq<Action>)
    ensures var s := Run(Start, run);
            && Distinct(s.viewer) && OwnBytes(s)
            && (forall p, q | p in s.viewer.pending && q in s.viewer.pending && p.expectBinary && q.expectBinary :: p.id == q.id)
            && (forall p | p in s.viewer.pending && p.expectBinary ::
                  p.id in s.served && s.served[p.id].Served?
                  && s.channel != [] && s.channel[0] == Binary(s.served[p.id].bytes))
  {
    RunKeepsInv(Start, run);
  }

  /** Once everything asked for has been answered and delivered, nothing is left pending. */
  lemma NothingLeftPending(run: seq<Action>)
    requires Run(Start, run).outstanding == {} && Run(Start, run).channel == []
    ensures Run(Start, run).viewer.pending == []
  {
    var ps := Run(Start, run).viewer.pending;
    assert ps != [] ==> ps[0] in ps;
    RunKeepsInv(Start, run);
  }

  // ---------------------------------------------------------------- nobody waits for ever

  /** A request is pending or has an outcome. */
  ghost predicate Known(v: Viewer, id: Id) {
    (exists p :: p in v.pending && p.id == id) || (exists r :: r in v.resolved && r.0 == id)
  }

  lemma ResolveKeepsKnown(v: Viewer, i: nat, outcome: Outcome, id: Id)
    requires i < |v.pending| && Known(v, id)
    ensures Known(Resolve(v, i, outcome), id)
  {
    var t := Resolve(v, i, outcome);
    assert t.resolved[|v.resolved|] in t.resolved;
    if r :| r in v.resolved && r.0 == id {
      assert r in t.resolved;
    } else {
      var p :| p in v.pending && p.id == id;
      assert p == v.pending[i] || p in t.pending;
    }
  }

  lemma FlagKeepsKnown(v: Viewer, i: nat, id: Id)
    requires i < |v.pending| && Known(v, id)
    ensures Known(v.(pending := v.pending[i := Pending(v.pending[i].id, true)]), id)
  {
    var ps := v.pending[i := Pending(v.pending[i].id, true)];
    if p :| p in v.pending && p.id == id {
      var j :| 0 <= j < |v.pending| && v.pending[j] == p;
      assert ps[j] in ps && ps[j].id == id;
    }
  }

  lemma ReceiveKeepsKnown(v: Viewer, m: Msg, id: Id)
    requires Known(v, id)
    ensures Known(Receive(v, m), id)
  {
    hide Known;
    match m
    case Meta(about, ok) =>
      if about.Some? && IndexOf(v.pending, about.value) < |v.pending| {
        var i := IndexOf(v.pending, about.value);
        if ok {
          FlagKeepsKnown(v, i, id);
        } else {
          ResolveKeepsKnown(v, i, None, id);
        }
      }
    case Binary(bytes) =>
      var i := Expecting(v.pending);
      if i < |v.pending| {
        ResolveKeepsKnown(v, i, Some(bytes), id);
      }
    case Garbage =>
  }

  /** A timer ends its own request, with nothing, and leaves every other one waiting; a request
      that has an outcome already is left alone. */
  lemma TimerEndsItsRequest(s: System, id: Id)
    requires Inv(s)
    ensures var v, t := s.viewer, TimeOut(s.viewer, id);
            && (forall p | p in t.pending :: p in v.pending && p.id != id)
            && (forall p | p in v.pending && p.id != id :: p in t.pending)
            && t.resolved == v.resolved + if exists p :: p in v.pending && p.id == id then [(id, None)] else []
  {
    var v, i := s.viewer, IndexOf(s.viewer.pending, id);
    if i < |v.pending| {
      assert v.pending[i] in v.pending;
      var rest := v.pending[..i] + v.pending[i + 1..];
      forall p | p in v.pending && p.id != id
        ensures p in rest
      {
        var j :| 0 <= j < |v.pending| && v.pending[j] == p;
        assert p == rest[if j < i then j else j - 1];
      }
    }
  }

  lemma StepKeepsKnown(s: System, a: Action, id: Id)
    requires Known(s.viewer, id)
    ensures Known(Step(s, a).viewer, id)
  {
    match a
    case Ask(other) =>
      var ps := s.viewer.pending;
      assert forall p | p in ps :: p in ps + [Pending(other, false)];
    case Answered(_, _) =>
    case Delivered =>
      if s.channel != [] {
        ReceiveKeepsKnown(s.viewer, s.channel[0], id);
      }
    case Expired(other) =>
      var i := IndexOf(s.viewer.pending, other);
      if i < |s.viewer.pending| {
        ResolveKeepsKnown(s.viewer, i, None, id);
      }
  }

  lemma NewcomerIsKnown(s: System, a: Action, id: Id)
    requires id !in s.outstanding && id !in s.served && (id in Step(s, a).outstanding || id in Step(s, a).served)
    ensures Known(Step(s, a).viewer, id)
  {
    var ps := Step(s, a).viewer.pending;
    assert ps[|ps| - 1] == Pending(id, false) && ps[|ps| - 1] in ps;
  }

  lemma {:induction false} RunKeepsKnown(s: System, run: seq<Action>, id: Id)
    requires id in s.outstanding || id in s.served ==> Known(s.viewer, id)
    ensures var t := Run(s, run);
            id in t.outstanding || id in t.served ==> Known(t.viewer, id)
    decreases |run|
  {
    hide Known, Receive, TimeOut;
    if run != [] {
      if id in s.outstanding || id in s.served {
        StepKeepsKnown(s, run[0], id);
      } else if id in Step(s, run[0]).outstanding || id in Step(s, run[0]).served {
        NewcomerIsKnown(s, run[0], id);
      }
      RunKeepsKnown(Step(s, run[0]), run[1..], id);
    }
  }

  /** Every request ends: at any moment one that was asked is pending or has its outcome, and once
      everything is answered and delivered it has one, which unless its timer fired is just what
      the provider served it. */
  lemma EveryRequestEnds(run: seq<Action>, id: Id)
    requires id in Run(Start, run).outstanding || id in Run(Start, run).served
    ensures var s := Run(Start, run);
            && Known(s.viewer, id)
            && (s.outstanding == {} && s.channel == [] ==> exists r :: r in s.viewer.resolved && r.0 == id)
            && (id !in s.expired ==> forall r | r in s.viewer.resolved && r.0 == id ::
                  id in s.served && r.1 == if s.served[id].Served? then Some(s.served[id].bytes) else None)
  {
    var s := Run(Start, run);
    RunKeepsKnown(Start, run, id);
    PairingIsSound(run);
    if s.outstanding == {} && s.channel == [] {
      NothingLeftPending(run);
    }
  }
}
