/** The SFU block path: the provider answers requests with a meta message and id-prefixed
    frames on one shared channel, every viewer picks out and reassembles its own. */
module SfuTransport {
  import opened Js
  import opened BlockProtocol

  datatype Msg =
    | Meta(id: Option<Id>, ok: bool, byteLength: Option<nat>)
    | ReadyAck(producerId: nat)
    | Garbage
    | Frame(bytes: seq<Byte>)

  // ---------------------------------------------------------------- provider

  /** The frames of a block: the id in front of consecutive chunks. */
  function Frames(id: Id, bytes: seq<Byte>): seq<Msg>
    decreases |bytes|
  {
    if bytes == [] then []
    else
      var n := MinInt(MAX_FRAME_PAYLOAD, |bytes|);
      [Frame(id + bytes[..n])] + Frames(id, bytes[n..])
  }

  /** What one request puts on the channel. */
  function Answer(id: Option<Id>, r: ServeResult): seq<Msg> {
    if r.Refused? || id.None? then [Meta(id, false, None)]
    else [Meta(id, true, Some(|r.bytes|))] + Frames(id.value, r.bytes)
  }

  /** No frame carries more than the payload limit behind its id. */
  lemma {:induction false} FramesFit(id: Id, bytes: seq<Byte>)
    ensures forall m | m in Frames(id, bytes) ::
              m.Frame? && id <= m.bytes && 0 < |m.bytes| - |id| <= MAX_FRAME_PAYLOAD
    decreases |bytes|
  {
    if bytes != [] {
      FramesFit(id, bytes[MinInt(MAX_FRAME_PAYLOAD, |bytes|)..]);
    }
  }

  class Producer {
    var sent: seq<Msg>
    var closed: bool

    constructor ()
      ensures sent == [] && !closed
    {
      sent, closed := [], false;
    }

    method Send(m: Msg)
      modifies `sent
      ensures sent == old(sent) + [m]
    {
      sent := sent + [m];
    }

    /** Wait until the send buffer drains; the channel may close meanwhile. */
    method WaitForDrain() returns (open: bool)
      modifies `closed
      ensures open == !closed && (old(closed) ==> closed)
    {
      var closes: bool := *;
      closed := closed || closes;
      open := !closed;
    }
  }

  /** One binary frame, filled in place: header, then chunk. */
  method MakeFrame(header: seq<Byte>, chunk: seq<Byte>) returns (frame: array<Byte>)
    ensures fresh(frame) && frame[..] == header + chunk
  {
    frame := new Byte[|header| + |chunk|](_ => 0);
    forall i | 0 <= i < |header| {
      frame[i] := header[i];
    }
    forall i | 0 <= i < |chunk| {
      frame[|header| + i] := chunk[i];
    }
  }

  /** The frames still to go once `offset` bytes are out. */
  function Remaining(id: Id, bytes: seq<Byte>, offset: nat): seq<Msg> {
    if offset < |bytes| then Frames(id, bytes[offset..]) else []
  }

  lemma RemainingStep(id: Id, bytes: seq<Byte>, offset: nat)
    requires offset < |bytes|
    ensures Remaining(id, bytes, offset)
         == [Frame(id + bytes[offset..MinInt(offset + MAX_FRAME_PAYLOAD, |bytes|)])] + Remaining(id, bytes, offset + MAX_FRAME_PAYLOAD)
  {
    var rest := bytes[offset..];
    var n := MinInt(MAX_FRAME_PAYLOAD, |rest|);
    assert rest[..n] == bytes[offset..MinInt(offset + MAX_FRAME_PAYLOAD, |bytes|)];
    assert Remaining(id, bytes, offset) == [Frame(id + rest[..n])] + Frames(id, rest[n..]);
    if offset + MAX_FRAME_PAYLOAD < |bytes| {
      assert rest[n..] == bytes[offset + MAX_FRAME_PAYLOAD..];
    } else {
      assert rest[n..] == [];
    }
  }

  /** Serve one request; without a close the whole answer goes out, with one a prefix of it. */
  method ServeBlockRequest(producer: Producer, file: Option<seq<Byte>>, r: RangeRequest, read: ReadOutcome)
    returns (complete: bool)
    modifies producer
    ensures var answer := Answer(r.id, Serve(file, r, true, false, read));
            && old(producer.sent) <= producer.sent <= old(producer.sent) + answer
            && (complete ==> producer.sent == old(producer.sent) + answer)
            && (!complete ==> producer.closed)
            && (complete && |answer| > 1 ==> !producer.closed)
  {
    var result := Serve(file, r, true, false, read);
    if result.Refused? {
      producer.Send(Meta(r.id, false, None));
      return true;
    }
    producer.Send(Meta(r.id, true, Some(|result.bytes|)));
    complete := SendFrames(producer, r.id.value, result.bytes);
  }

  /** The fragmentation loop. */
  method SendFrames(producer: Producer, header: Id, bytes: seq<Byte>) returns (complete: bool)
    modifies producer
    ensures old(producer.sent) <= producer.sent <= old(producer.sent) + Frames(header, bytes)
    ensures complete ==> producer.sent == old(producer.sent) + Frames(header, bytes)
    ensures !complete ==> producer.closed
    ensures complete && bytes != [] ==> !producer.closed
  {
    hide Frames, Remaining;
    NothingSentYet(header, bytes);
    ghost var before, out := producer.sent, [];
    var offset := 0;
    while offset < |bytes|
      invariant 0 <= offset && (offset > 0 ==> !producer.closed)
      invariant producer.sent == before + out
      invariant out + Remaining(header, bytes, offset) == Frames(header, bytes)
    {
      SentSoFar(before, out, Remaining(header, bytes, offset));
      var open := producer.WaitForDrain();
      if !open {
        return false;
      }
      RemainingStep(header, bytes, offset);
      var frame := MakeFrame(header, bytes[offset..MinInt(offset + MAX_FRAME_PAYLOAD, |bytes|)]);
      producer.Send(Frame(frame[..]));
      OneMoreSent(before, out, Frame(frame[..]), Remaining(header, bytes, offset + MAX_FRAME_PAYLOAD));
      out := out + [Frame(frame[..])];
      offset := offset + MAX_FRAME_PAYLOAD;
    }
    NothingRemains(header, bytes, offset);
    SentSoFar(before, out, []);
    return true;
  }

  lemma NothingSentYet(id: Id, bytes: seq<Byte>)
    ensures [] + Remaining(id, bytes, 0) == Frames(id, bytes)
  {
    assert bytes[0..] == bytes;
  }

  lemma NothingRemains(id: Id, bytes: seq<Byte>, offset: nat)
    requires offset >= |bytes|
    ensures Remaining(id, bytes, offset) == []
  {
  }

  lemma SentSoFar(before: seq<Msg>, out: seq<Msg>, rest: seq<Msg>)
    ensures before <= before + out <= before + (out + rest)
    ensures rest == [] ==> out + rest == out
  {
    assert before + (out + rest) == (before + out) + rest;
  }

  lemma OneMoreSent(before: seq<Msg>, out: seq<Msg>, m: Msg, rest: seq<Msg>)
    ensures (before + out) + [m] == before + (out + [m]) && out + ([m] + rest) == (out + [m]) + rest
  {
  }

  // ---------------------------------------------------------------- viewer, one request

  /** A pending request: the buffer once its meta has arrived, and how much is filled. */
  datatype Block = Block(buffer: Option<seq<Byte>>, received: nat)

  /** What a request resolves with: the bytes, or nothing. */
  type Outcome = Option<seq<Byte>>

  function Zeros(n: nat): seq<Byte> {
    seq(n, i requires 0 <= i < n => 0)
  }

  /** The request a message is about, if any. */
  function Concerns(m: Msg): Option<Id> {
    match m
    case Meta(id, _, _) => id
    case Frame(bytes) => if |bytes| >= REQUEST_ID_LENGTH then Some(bytes[..REQUEST_ID_LENGTH]) else None
    case _ => None
  }

  /** A message about a pending request: the request after it, or its outcome. */
  datatype Reaction = Keep(block: Block) | Resolve(outcome: Outcome)

  function React(b: Block, m: Msg): Reaction {
    if m.Meta? then
      if !m.ok || m.byteLength.None? then Resolve(None)
      else if m.byteLength.value == 0 then Resolve(Some([]))
      else Keep(b.(buffer := Some(Zeros(m.byteLength.value))))
    else if Concerns(m).None? || b.buffer.None? then Keep(b)
    else
      var payload := m.bytes[REQUEST_ID_LENGTH..];
      var end := b.received + |payload|;
      if end > |b.buffer.value| then Resolve(None)
      else
        var filled := b.buffer.value[..b.received] + payload + b.buffer.value[end..];
        if end == |filled| then Resolve(Some(filled)) else Keep(Block(Some(filled), end))
  }

  // ---------------------------------------------------------------- viewer, all requests

  datatype Event = Deliver(msg: Msg) | TimesOut(id: Id)

  /** The pending requests, and for every id what it has been resolved with, in order. */
  datatype ViewerState = ViewerState(pending: map<Id, Block>, resolved: seq<(Id, Outcome)>)

  function Handle(s: ViewerState, e: Event): ViewerState {
    match e
    case TimesOut(id) =>
      if id in s.pending then ViewerState(s.pending - {id}, s.resolved + [(id, None)]) else s
    case Deliver(m) =>
      var id := Concerns(m);
      if id.None? || id.value !in s.pending then s
      else match React(s.pending[id.value], m)
        case Keep(b) => s.(pending := s.pending[id.value := b])
        case Resolve(o) => ViewerState(s.pending - {id.value}, s.resolved + [(id.value, o)])
  }

  class PendingBlock {
    var buffer: array?<Byte>
    var received: nat

    constructor ()
      ensures buffer == null && received == 0
    {
      buffer, received := null, 0;
    }

    ghost function View(): Block
      reads this, buffer
    {
      Block(if buffer == null then None else Some(buffer[..]), received)
    }
  }

  /** The viewer's slot: requests in flight, each with its own buffer, the ready handshake,
      and a record of what every request was resolved with. */
  class ViewerSlot {
    const requestProducerId: nat
    var pending: map<Id, PendingBlock>
    var ready: bool
    var resolved: seq<(Id, Outcome)>

    constructor (requestProducerId: nat)
      ensures this.requestProducerId == requestProducerId && !ready
      ensures Valid() && State() == ViewerState(map[], [])
    {
      this.requestProducerId, pending, ready, resolved := requestProducerId, map[], false, [];
    }

    /** No two requests share a block or a buffer. */
    ghost predicate Valid()
      reads this, pending.Values
    {
      forall a, b | a in pending && b in pending && a != b ::
        pending[a] != pending[b] && (pending[a].buffer != null ==> pending[a].buffer != pending[b].buffer)
    }

    ghost function Buffers(): set<array<Byte>>
      reads this, pending.Values
    {
      set p | p in pending.Values && p.buffer != null :: p.buffer
    }

    ghost function State(): ViewerState
      reads this, pending.Values, Buffers()
    {
      ViewerState(map id | id in pending :: pending[id].View(), resolved)
    }

    method Begin(id: Id)
      requires Valid() && id !in pending
      modifies this
      ensures Valid() && ready == old(ready)
      ensures State() == old(State()).(pending := old(State()).pending[id := Block(None, 0)])
    {
      var block := new PendingBlock();
      pending := pending[id := block];
    }

    method Finish(id: Id, outcome: Outcome)
      requires Valid() && id in pending
      modifies this
      ensures Valid() && ready == old(ready)
      ensures State() == ViewerState(old(State()).pending - {id}, old(resolved) + [(id, outcome)])
    {
      pending := pending - {id};
      resolved := resolved + [(id, outcome)];
    }

    method OnTimeout(id: Id)
      requires Valid()
      modifies this
      ensures Valid() && ready == old(ready) && State() == Handle(old(State()), TimesOut(id))
    {
      if id in pending {
        Finish(id, None);
      }
    }

    /** One message from the block channel: the ready handshake, or a step of reassembly with
        the payload copied into the request's buffer in place. */
    method OnMessage(m: Msg)
      requires Valid()
      modifies this, pending.Values, Buffers()
      ensures Valid() && State() == Handle(old(State()), Deliver(m))
      ensures ready == (old(ready) || m == ReadyAck(requestProducerId))
    {
      if m.ReadyAck? {
        if m.producerId == requestProducerId {
          ready := true;
        }
        return;
      }
      var id := Concerns(m);
      if id.None? || id.value !in pending {
        return;
      }
      if m.Meta? {
        OnMeta(id.value, m);
      } else {
        OnFrame(id.value, m);
      }
    }

    method OnMeta(id: Id, m: Msg)
      requires Valid() && id in pending && m.Meta? && m.id == Some(id)
      modifies this, pending[id]
      ensures Valid() && ready == old(ready) && State() == Handle(old(State()), Deliver(m))
    {
      if !m.ok || m.byteLength.None? {
        Finish(id, None);
        return;
      }
      Allocate(id, m.byteLength.value);
      if m.byteLength.value == 0 {
        Finish(id, Some([]));
      }
    }

    method Allocate(id: Id, byteLength: nat)
      requires Valid() && id in pending
      modifies pending[id]
      ensures Valid()
      ensures State() == old(State()).(pending :=
                old(State()).pending[id := Block(Some(Zeros(byteLength)), old(pending[id].received))])
    {
      hide Zeros;
      var buffer := new Byte[byteLength](_ => 0);
      AllZero(buffer[..]);
      pending[id].buffer := buffer;
    }

    static lemma AllZero(bytes: seq<Byte>)
      requires forall i | 0 <= i < |bytes| :: bytes[i] == 0
      ensures bytes == Zeros(|bytes|)
    {
    }

    /** Copy a payload that fits behind what has been received. */
    method Fill(id: Id, payload: seq<Byte>)
      requires Valid() && id in pending && pending[id].buffer != null
      requires pending[id].received + |payload| <= pending[id].buffer.Length
      modifies pending[id], pending[id].buffer
      ensures Valid() && pending[id].buffer != null
      ensures var b := old(State()).pending[id];
              var end := b.received + |payload|;
              State() == old(State()).(pending := old(State()).pending[id :=
                Block(Some(b.buffer.value[..b.received] + payload + b.buffer.value[end..]), end)])
    {
      var block := pending[id];
      Copy(block.buffer, block.received, payload);
      block.received := block.received + |payload|;
    }

    method OnFrame(id: Id, m: Msg)
      requires Valid() && id in pending && m.Frame? && Concerns(m) == Some(id)
      modifies this, pending[id], Buffers()
      ensures Valid() && ready == old(ready) && State() == Handle(old(State()), Deliver(m))
    {
      var block := pending[id];
      if block.buffer == null {
        return;
      }
      var payload := m.bytes[REQUEST_ID_LENGTH..];
      if block.received + |payload| > block.buffer.Length {
        Finish(id, None);
        return;
      }
      Fill(id, payload);
      if block.received == block.buffer.Length {
        Finish(id, Some(block.buffer[..]));
      }
    }
  }

  /** `buffer.set(payload, at)`. */
  method Copy(buffer: array<Byte>, at: nat, payload: seq<Byte>)
    requires at + |payload| <= buffer.Length
    modifies buffer
    ensures buffer[..] == old(buffer[..at]) + payload + old(buffer[at + |payload|..])
  {
    forall i | 0 <= i < |payload| {
      buffer[at + i] := payload[i];
    }
  }
}
