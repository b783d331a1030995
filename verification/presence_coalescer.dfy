/** Presence batches are gathered and applied once per animation frame, while controls are
    applied at once. The delay is meant to be unobservable. */
module PresenceCoalescer {
  import opened Js
  import opened RoomStateMerge

  /** `armed`: a cancel function is held. `scheduled`: a frame callback is really outstanding.
      `flushed`: the lists handed to the flush callback so far. */
  datatype State = State(pending: seq<Presence>, armed: bool, scheduled: bool, flushed: seq<seq<Presence>>)

  const Empty := State([], false, false, [])

  function Flush(s: State): State {
    var idle := s.(armed := false, scheduled := false);
    if s.pending == [] then idle else idle.(pending := [], flushed := s.flushed + [s.pending])
  }

  function Enqueue(s: State, p: Presence, synchronous: bool): State {
    var pushed := s.(pending := s.pending + [p]);
    if s.armed then pushed
    else if synchronous then Flush(pushed).(armed := true)
    else pushed.(armed := true, scheduled := true)
  }

  /** The coalescer as it is written: closure variables `pending` and `cancelScheduled`. */
  class Coalescer {
    var pending: seq<Presence>
    var cancelScheduled: bool
    var frameRequested: bool
    var flushed: seq<seq<Presence>>
    /** The schedule passed in calls back before it returns. */
    const synchronous: bool

    ghost function View(): State
      reads this
    {
      State(pending, cancelScheduled, frameRequested, flushed)
    }

    constructor (synchronous: bool)
      ensures this.synchronous == synchronous && View() == Empty
    {
      pending, cancelScheduled, frameRequested, flushed := [], false, false, [];
      this.synchronous := synchronous;
    }

    method RunFlush()
      modifies this
      ensures View() == Flush(old(View()))
    {
      cancelScheduled, frameRequested := false, false;
      if |pending| == 0 {
        return;
      }
      var payloads := pending;
      pending := [];
      flushed := flushed + [payloads];
    }

    method Schedule()
      modifies this
      ensures View() == if synchronous then Flush(old(View())) else old(View()).(scheduled := true)
    {
      if synchronous {
        RunFlush();
      } else {
        frameRequested := true;
      }
    }

    method Push(p: Presence)
      modifies this
      ensures View() == Enqueue(old(View()), p, synchronous)
    {
      pending := pending + [p];
      if cancelScheduled {
        return;
      }
      Schedule();
      cancelScheduled := true;
    }

    /** Socket teardown: pending batches are dropped and the frame is cancelled. */
    method Dispose()
      requires cancelScheduled || !frameRequested
      modifies this
      ensures View() == Empty.(flushed := old(flushed))
    {
      if cancelScheduled {
        frameRequested := false;
      }
      cancelScheduled := false;
      pending := [];
    }
  }

  // ---------------------------------------------------------------- nothing lost or reordered

  datatype Event = Arrives(presence: Presence) | Frame

  function Step(s: State, e: Event, synchronous: bool): State {
    match e
    case Arrives(p) => Enqueue(s, p, synchronous)
    case Frame => if s.scheduled then Flush(s) else s
  }

  function Steps(s: State, es: seq<Event>, synchronous: bool): State
    decreases |es|
  {
    if es == [] then s else Steps(Step(s, es[0], synchronous), es[1..], synchronous)
  }

  function Arrived(es: seq<Event>): seq<Presence>
    decreases |es|
  {
    if es == [] then [] else (if es[0].Arrives? then [es[0].presence] else []) + Arrived(es[1..])
  }

  function Concat(xs: seq<seq<Presence>>): seq<Presence>
    decreases |xs|
  {
    if xs == [] then [] else Concat(xs[..|xs| - 1]) + xs[|xs| - 1]
  }

  /** What the coalescer holds or has handed out, in order. */
  function Content(s: State): seq<Presence> {
    Concat(s.flushed) + s.pending
  }

  predicate WakesUp(s: State) {
    s.armed == s.scheduled && (s.pending != [] ==> s.scheduled) && forall xs | xs in s.flushed :: xs != []
  }

  lemma FlushKeepsContent(s: State)
    ensures Content(Flush(s)) == Content(s) && Flush(s).pending == []
  {
    if s.pending != [] {
      assert Flush(s).flushed[..|s.flushed|] == s.flushed;
    }
  }

  /** With a schedule that calls back later, every run hands out or holds exactly what arrived,
      once and in arrival order; a held batch always has a frame outstanding, and no flush is
      empty. */
  lemma {:induction false} NothingLostOrReordered(s: State, es: seq<Event>)
    requires WakesUp(s)
    ensures WakesUp(Steps(s, es, false))
    ensures Content(Steps(s, es, false)) == Content(s) + Arrived(es)
    decreases |es|
  {
    if es != [] {
      StepKeepsContent(s, es[0]);
      hide WakesUp, Content, Step;
      NothingLostOrReordered(Step(s, es[0], false), es[1..]);
      var now := if es[0].Arrives? then [es[0].presence] else [];
      Regroup(Content(s), now, Arrived(es[1..]));
    } else {
      assert Content(s) + [] == Content(s);
    }
  }

  lemma Regroup(a: seq<Presence>, b: seq<Presence>, c: seq<Presence>)
    ensures a + b + c == a + (b + c)
  {
  }

  lemma StepKeepsContent(s: State, e: Event)
    requires WakesUp(s)
    ensures WakesUp(Step(s, e, false))
    ensures Content(Step(s, e, false)) == Content(s) + if e.Arrives? then [e.presence] else []
  {
    FlushKeepsContent(s);
    hide Concat;
  }

  /** A schedule that calls back before returning leaves the stale cancel function in place:
      only the first batch is ever handed out, whatever arrives afterwards. */
  lemma {:induction false} SynchronousScheduleDeliversOnce(s: State, es: seq<Event>)
    requires s.armed && !s.scheduled
    ensures Steps(s, es, true) == s.(pending := s.pending + Arrived(es))
    decreases |es|
  {
    if es != [] {
      SynchronousScheduleDeliversOnce(Step(s, es[0], true), es[1..]);
    }
  }

  lemma FirstSynchronousBatch(p: Presence, es: seq<Event>)
    ensures var t := Steps(Empty, [Arrives(p)] + es, true);
            t.flushed == [[p]] && t.pending == Arrived(es) && !t.scheduled
  {
    var first := Enqueue(Empty, p, true);
    assert [] + [p] == [p] && [] + [[p]] == [[p]];
    assert ([Arrives(p)] + es)[1..] == es;
    SynchronousScheduleDeliversOnce(first, es);
  }

  // ---------------------------------------------------------------- unobservable delay

  datatype Input = Control(control: RoomStateMerge.Control) | Batch(presence: Presence) | Tick

  /** The client's room together with its coalescer. */
  datatype Client = Client(room: Option<Room>, held: State)

  function Lazy(c: Client, i: Input): Client {
    match i
    case Control(m) => c.(room := ApplyControl(c.room, m))
    case Batch(p) => c.(held := Enqueue(c.held, p, false))
    case Tick => if c.held.scheduled then Client(ApplyPresences(c.room, c.held.pending), Flush(c.held)) else c
  }

  function LazyRun(c: Client, xs: seq<Input>): Client
    decreases |xs|
  {
    if xs == [] then c else LazyRun(Lazy(c, xs[0]), xs[1..])
  }

  /** Arrival order: every message applied when it arrives. */
  function EagerRun(r: Option<Room>, xs: seq<Input>): Option<Room>
    decreases |xs|
  {
    if xs == [] then r
    else
      EagerRun(match xs[0]
               case Control(m) => ApplyControl(r, m)
               case Batch(p) => ApplyPresence(r, p)
               case Tick => r, xs[1..])
  }

  lemma {:induction false} ControlCommutes(r: Option<Room>, c: RoomStateMerge.Control, ps: seq<Presence>)
    ensures ApplyPresences(ApplyControl(r, c), ps) == ApplyControl(ApplyPresences(r, ps), c)
    decreases |ps|
  {
    if ps != [] {
      assert ApplyPresence(ApplyControl(r, c), ps[0]) == ApplyControl(ApplyPresence(r, ps[0]), c);
      ControlCommutes(ApplyPresence(r, ps[0]), c, ps[1..]);
    }
  }

  /** For every interleaving of controls, batches and frames, the room once the held batches
      are applied is the room of plain arrival order. */
  lemma {:induction false} CoalescingIsUnobservable(c: Client, xs: seq<Input>)
    ensures var t := LazyRun(c, xs);
            ApplyPresences(t.room, t.held.pending) == EagerRun(ApplyPresences(c.room, c.held.pending), xs)
    decreases |xs|
  {
    if xs != [] {
      match xs[0] {
        case Control(m) => ControlCommutes(c.room, m, c.held.pending);
        case Batch(p) => ApplyLast(c.room, c.held.pending, p);
        case Tick =>
      }
      CoalescingIsUnobservable(Lazy(c, xs[0]), xs[1..]);
    }
  }

  /** A frame after the run leaves the client itself in the arrival-order room. */
  lemma AfterTheFrameTheRoomsAgree(r: Option<Room>, xs: seq<Input>)
    ensures LazyRun(Client(r, Empty), xs + [Tick]).room == EagerRun(r, xs)
  {
    var c := Client(r, Empty);
    CoalescingIsUnobservable(c, xs);
    HeldIsScheduled(c, xs);
    LazyRunLast(c, xs, Tick);
  }

  lemma {:induction false} HeldIsScheduled(c: Client, xs: seq<Input>)
    requires WakesUp(c.held)
    ensures WakesUp(LazyRun(c, xs).held)
    decreases |xs|
  {
    if xs != [] {
      HeldIsScheduled(Lazy(c, xs[0]), xs[1..]);
    }
  }

  lemma {:induction false} LazyRunLast(c: Client, xs: seq<Input>, i: Input)
    ensures LazyRun(c, xs + [i]) == Lazy(LazyRun(c, xs), i)
    decreases |xs|
  {
    if xs == [] {
      assert xs + [i] == [i] && [i][1..] == [];
    } else {
      assert (xs + [i])[1..] == xs[1..] + [i];
      LazyRunLast(Lazy(c, xs[0]), xs[1..], i);
    }
  }

  // ---------------------------------------------------------------- replays and snapshots

  lemma {:induction false} StaleBatchesChangeNothing(r: Room, ps: seq<Presence>)
    requires forall p | p in ps :: p.revision <= PresenceRevision(r)
    ensures ApplyPresences(Some(r), ps) == Some(r)
    decreases |ps|
  {
    if ps != [] {
      StaleBatchesChangeNothing(r, ps[1..]);
    }
  }

  lemma {:induction false} RevisionCovers(r: Room, ps: seq<Presence>)
    ensures var t := ApplyPresences(Some(r), ps);
            && t.Some? && PresenceRevision(t.value) >= PresenceRevision(r)
            && forall p | p in ps :: p.revision <= PresenceRevision(t.value)
    decreases |ps|
  {
    if ps != [] {
      RevisionCovers(ApplyPresence(Some(r), ps[0]).value, ps[1..]);
      assert forall p | p in ps :: p == ps[0] || p in ps[1..];
    }
  }

  /** Replaying batches already seen, in any order and number, changes nothing. */
  lemma ReplayChangesNothing(r: Room, ps: seq<Presence>, again: seq<Presence>)
    requires forall q | q in again :: q in ps
    ensures ApplyPresences(ApplyPresences(Some(r), ps), again) == ApplyPresences(Some(r), ps)
  {
    RevisionCovers(r, ps);
    StaleBatchesChangeNothing(ApplyPresences(Some(r), ps).value, again);
  }

  /** A snapshot may be swapped with a waiting batch exactly when the batch is not news to it:
      its revision was already reached, or its patches change none of the snapshot's
      participants. */
  lemma SnapshotCommutesIff(r: Room, s: Room, p: Presence)
    ensures ApplyPresence(Some(ApplySnapshot(Some(r), s)), p) == Some(ApplySnapshot(ApplyPresence(Some(r), p), s))
       <==> p.revision <= MaxInt(PresenceRevision(r), PresenceRevision(s))
            || MergePresence(s.participants, p.participants) == s.participants
  {
    var lazy := ApplyPresence(Some(ApplySnapshot(Some(r), s)), p).value;
    var eager := ApplySnapshot(ApplyPresence(Some(r), p), s);
    assert eager.participants == s.participants;
    assert lazy == eager.(participants := lazy.participants);
  }
}
