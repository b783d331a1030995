/** The client's room state and the messages merged into it: authority controls, presence
    batches and snapshots, each possibly late, repeated or out of order. */
module RoomStateMerge {
  import opened Js

  /** Contents the merge only carries around. */
  type Payload = int

  datatype SeekPreview = SeekPreview(active: bool, at: Payload)

  datatype Playback = Playback(mediaId: Option<string>, seekPreview: Option<SeekPreview>, rest: Payload)

  datatype Item = Item(id: string, rest: Payload)

  datatype Participant = Participant(connected: bool, lastSeenAt: int, disconnectedAt: Option<int>, username: string,
                                     avatarStyle: Option<string>, localPlayback: Option<Payload>, rest: Payload)

  datatype Patch = Patch(connected: Option<bool>, lastSeenAt: Option<int>, disconnectedAt: Option<int>,
                         username: Option<string>, avatarStyle: Option<string>, localPlayback: Option<Payload>)

  /** The room as the client holds it; a snapshot message carries one of these. */
  datatype Room = Room(playback: Playback, playlist: seq<Item>, currentIndex: nat, participants: map<string, Participant>,
                       updatedAt: int, generation: nat, structuralRevision: nat, presenceRevision: Option<nat>, rest: Payload)

  datatype Control = Control(generation: nat, playback: Playback, currentIndex: nat, updatedAt: int)

  datatype Presence = Presence(revision: nat, participants: map<string, Patch>)

  function Truthy(id: Option<string>): bool {
    id.Some? && id.value != ""
  }

  // ---------------------------------------------------------------- reducers

  function PickDefined<T>(patch: Option<T>, existing: T): T {
    if patch.Some? then patch.value else existing
  }

  function Patched(p: Participant, q: Patch): Participant {
    p.(connected := PickDefined(q.connected, p.connected),
       lastSeenAt := PickDefined(q.lastSeenAt, p.lastSeenAt),
       disconnectedAt := if q.disconnectedAt.Some? then q.disconnectedAt else p.disconnectedAt,
       username := PickDefined(q.username, p.username),
       avatarStyle := if q.avatarStyle.Some? then q.avatarStyle else p.avatarStyle,
       localPlayback := if q.localPlayback.Some? then q.localPlayback else p.localPlayback)
  }

  /** Known participants are patched, unknown ones are not created. */
  function MergePresence(prev: map<string, Participant>, patches: map<string, Patch>): map<string, Participant> {
    map id | id in prev :: if id in patches then Patched(prev[id], patches[id]) else prev[id]
  }

  /** The merge as it is computed: a copy updated entry by entry, in any order. */
  method MergeParticipantPresence(prev: map<string, Participant>, patches: map<string, Patch>)
    returns (next: map<string, Participant>)
    ensures next == MergePresence(prev, patches)
  {
    next := prev;
    var todo := patches.Keys;
    while todo != {}
      invariant todo <= patches.Keys && next.Keys == prev.Keys
      invariant forall id | id in prev ::
                  next[id] == if id in patches && id !in todo then Patched(prev[id], patches[id]) else prev[id]
      decreases |todo|
    {
      var id :| id in todo;
      todo := todo - {id};
      if id in next {
        next := next[id := Patched(next[id], patches[id])];
      }
    }
  }

  function FindId(playlist: seq<Item>, id: string): (i: nat)
    ensures i <= |playlist|
    ensures i < |playlist| ==> playlist[i].id == id
    ensures forall j | 0 <= j < i :: playlist[j].id != id
    decreases |playlist|
  {
    if playlist == [] then 0 else if playlist[0].id == id then 0 else 1 + FindId(playlist[1..], id)
  }

  /** The stable media id wins over the index when they disagree about the held playlist. */
  function ReconcileIndex(prev: Room, c: Control): nat {
    if !Truthy(c.playback.mediaId) then c.currentIndex
    else
      var id := c.playback.mediaId.value;
      if c.currentIndex < |prev.playlist| && prev.playlist[c.currentIndex].id == id then c.currentIndex
      else if FindId(prev.playlist, id) < |prev.playlist| then FindId(prev.playlist, id)
      else prev.currentIndex
  }

  function ApplyControl(prev: Option<Room>, c: Control): Option<Room> {
    if prev.None? || c.generation < prev.value.generation then prev
    else Some(prev.value.(playback := c.playback, currentIndex := ReconcileIndex(prev.value, c),
                          updatedAt := c.updatedAt, generation := c.generation))
  }

  function PresenceRevision(r: Room): nat {
    if r.presenceRevision.Some? then r.presenceRevision.value else 0
  }

  function ApplyPresence(prev: Option<Room>, p: Presence): Option<Room> {
    if prev.None? || p.revision <= PresenceRevision(prev.value) then prev
    else Some(prev.value.(participants := MergePresence(prev.value.participants, p.participants),
                          presenceRevision := Some(p.revision)))
  }

  function ApplyPresences(prev: Option<Room>, ps: seq<Presence>): Option<Room>
    decreases |ps|
  {
    if ps == [] then prev else ApplyPresences(ApplyPresence(prev, ps[0]), ps[1..])
  }

  method ApplyPresenceBatches(prev: Option<Room>, ps: seq<Presence>) returns (next: Option<Room>)
    ensures next == ApplyPresences(prev, ps)
  {
    next := prev;
    assert ps[0..] == ps;
    for i := 0 to |ps|
      invariant ApplyPresences(next, ps[i..]) == ApplyPresences(prev, ps)
    {
      assert ps[i..][1..] == ps[i + 1..];
      next := ApplyPresence(next, ps[i]);
    }
  }

  function Active(p: Option<SeekPreview>): bool {
    p.Some? && p.value.active
  }

  function ApplySnapshot(prev: Option<Room>, s: Room): Room {
    if prev.None? then s
    else
      var p := prev.value;
      var applyPlayback := s.generation >= p.generation;
      var playback := if applyPlayback then s.playback else p.playback;
      var kept := if applyPlayback && Active(p.playback.seekPreview) && !Active(s.playback.seekPreview) && p.generation >= s.generation
                  then playback.(seekPreview := p.playback.seekPreview) else playback;
      s.(playback := kept,
         currentIndex := if applyPlayback then s.currentIndex else p.currentIndex,
         generation := MaxInt(p.generation, s.generation),
         structuralRevision := MaxInt(p.structuralRevision, s.structuralRevision),
         presenceRevision := Some(MaxInt(PresenceRevision(p), PresenceRevision(s))))
  }

  function ResolveCurrentItem(r: Room): Option<Item> {
    var i := if Truthy(r.playback.mediaId) then FindId(r.playlist, r.playback.mediaId.value) else |r.playlist|;
    if i < |r.playlist| then Some(r.playlist[i])
    else if r.currentIndex < |r.playlist| then Some(r.playlist[r.currentIndex])
    else None
  }

  // ---------------------------------------------------------------- what presence does

  lemma {:induction false} ApplyLast(r: Option<Room>, ps: seq<Presence>, p: Presence)
    ensures ApplyPresences(r, ps + [p]) == ApplyPresence(ApplyPresences(r, ps), p)
    decreases |ps|
  {
    if ps == [] {
      assert ps + [p] == [p] && [p][1..] == [];
    } else {
      assert (ps + [p])[1..] == ps[1..] + [p];
      ApplyLast(ApplyPresence(r, ps[0]), ps[1..], p);
    }
  }

  /** The newest revision held or seen. */
  function Highest(held: nat, ps: seq<Presence>): (n: nat)
    ensures held <= n && (n == held || exists p | p in ps :: p.revision == n) && forall p | p in ps :: p.revision <= n
  {
    if ps == [] then held else MaxInt(Highest(held, ps[..|ps| - 1]), ps[|ps| - 1].revision)
  }

  /** The batches that are newer than everything before them. */
  function News(held: nat, ps: seq<Presence>): seq<Presence> {
    if ps == [] then []
    else
      var rest, last := ps[..|ps| - 1], ps[|ps| - 1];
      News(held, rest) + if last.revision > Highest(held, rest) then [last] else []
  }

  /** The value that the last of the batches to give one for the participant gives. */
  function LastGiven<T>(ps: seq<Presence>, id: string, field: Patch -> Option<T>, held: Option<T>): Option<T> {
    if ps == [] then held
    else
      var last := ps[|ps| - 1];
      if id in last.participants && field(last.participants[id]).Some? then field(last.participants[id])
      else LastGiven(ps[..|ps| - 1], id, field, held)
  }

  /** `q` is the participant `p` with every field as the batches last give it. */
  predicate Follows(q: Participant, p: Participant, id: string, ps: seq<Presence>) {
    && Some(q.connected) == LastGiven(ps, id, (x: Patch) => x.connected, Some(p.connected))
    && Some(q.lastSeenAt) == LastGiven(ps, id, (x: Patch) => x.lastSeenAt, Some(p.lastSeenAt))
    && q.disconnectedAt == LastGiven(ps, id, (x: Patch) => x.disconnectedAt, p.disconnectedAt)
    && Some(q.username) == LastGiven(ps, id, (x: Patch) => x.username, Some(p.username))
    && q.avatarStyle == LastGiven(ps, id, (x: Patch) => x.avatarStyle, p.avatarStyle)
    && q.localPlayback == LastGiven(ps, id, (x: Patch) => x.localPlayback, p.localPlayback)
    && q.rest == p.rest
  }

  lemma GivenAgain<T>(ps: seq<Presence>, p: Presence, id: string, field: Patch -> Option<T>, held: Option<T>)
    ensures LastGiven(ps + [p], id, field, held)
            == if id in p.participants && field(p.participants[id]).Some? then field(p.participants[id])
               else LastGiven(ps, id, field, held)
  {
    assert (ps + [p])[..|ps|] == ps;
  }

  lemma PatchFollows(o: Participant, q: Participant, id: string, ps: seq<Presence>, p: Presence)
    requires Follows(o, q, id, ps)
    ensures Follows(if id in p.participants then Patched(o, p.participants[id]) else o, q, id, ps + [p])
  {
    GivenAgain(ps, p, id, (x: Patch) => x.connected, Some(q.connected));
    GivenAgain(ps, p, id, (x: Patch) => x.lastSeenAt, Some(q.lastSeenAt));
    GivenAgain(ps, p, id, (x: Patch) => x.disconnectedAt, q.disconnectedAt);
    GivenAgain(ps, p, id, (x: Patch) => x.username, Some(q.username));
    GivenAgain(ps, p, id, (x: Patch) => x.avatarStyle, q.avatarStyle);
    GivenAgain(ps, p, id, (x: Patch) => x.localPlayback, q.localPlayback);
    hide LastGiven;
  }

  /** What any list of presence batches does to a room: it knows the newest revision, nobody
      joins or leaves, every field of a participant has the value that the last batch to give
      one gives, among those that were news when they came, and all else is as it was. */
  lemma {:induction false} LastNewsDecides(r: Room, ps: seq<Presence>)
    ensures ApplyPresences(Some(r), ps).Some?
    ensures var t, news := ApplyPresences(Some(r), ps).value, News(PresenceRevision(r), ps);
            && PresenceRevision(t) == Highest(PresenceRevision(r), ps)
            && t == r.(participants := t.participants, presenceRevision := t.presenceRevision)
            && t.participants.Keys == r.participants.Keys
            && forall id | id in r.participants :: Follows(t.participants[id], r.participants[id], id, news)
    decreases |ps|
  {
    if ps != [] {
      var rest, last := ps[..|ps| - 1], ps[|ps| - 1];
      LastNewsDecides(r, rest);
      ApplyLast(Some(r), rest, last);
      NewsStep(PresenceRevision(r), rest, last);
      assert ps == rest + [last];
      hide ApplyPresences, News, Highest, Follows, Patched;
      BatchFollows(ApplyPresences(Some(r), rest).value, r, last, News(PresenceRevision(r), rest));
    }
  }

  lemma NewsStep(held: nat, ps: seq<Presence>, p: Presence)
    ensures Highest(held, ps + [p]) == MaxInt(Highest(held, ps), p.revision)
    ensures News(held, ps + [p]) == if p.revision > Highest(held, ps) then News(held, ps) + [p] else News(held, ps)
  {
    assert (ps + [p])[..|ps|] == ps;
    assert News(held, ps) + [] == News(held, ps);
  }

  lemma BatchFollows(t: Room, r: Room, p: Presence, news: seq<Presence>)
    requires t.participants.Keys == r.participants.Keys
    requires forall id | id in r.participants :: Follows(t.participants[id], r.participants[id], id, news)
    ensures p.revision > PresenceRevision(t) ==>
              var u := ApplyPresence(Some(t), p).value;
              u.participants.Keys == r.participants.Keys
              && forall id | id in r.participants :: Follows(u.participants[id], r.participants[id], id, news + [p])
  {
    hide Follows, Patched;
    forall id | id in r.participants
      ensures var o := t.participants[id];
              Follows(if id in p.participants then Patched(o, p.participants[id]) else o, r.participants[id], id, news + [p])
    {
      PatchFollows(t.participants[id], r.participants[id], id, news, p);
    }
  }

  // ---------------------------------------------------------------- index and item

  /** After an accepted control whose media id is in the held playlist, index and resolved item
      both have that id; when it is not, the index stays and the item is the indexed one. */
  lemma ControlSelectsItsMedia(prev: Room, c: Control)
    requires c.generation >= prev.generation && Truthy(c.playback.mediaId)
    ensures var r := ApplyControl(Some(prev), c).value;
            var id := c.playback.mediaId.value;
            if exists i :: 0 <= i < |prev.playlist| && prev.playlist[i].id == id then
              && r.currentIndex < |r.playlist| && r.playlist[r.currentIndex].id == id
              && ResolveCurrentItem(r).Some? && ResolveCurrentItem(r).value.id == id
            else
              && r.currentIndex == prev.currentIndex
              && ResolveCurrentItem(r) == (if prev.currentIndex < |prev.playlist| then Some(prev.playlist[prev.currentIndex]) else None)
  {
  }

  // ---------------------------------------------------------------- monotone revisions

  datatype Message = FromControl(control: Control) | FromPresence(presence: Presence) | FromSnapshot(snapshot: Room)

  function Merge(prev: Option<Room>, m: Message): Option<Room> {
    match m
    case FromControl(c) => ApplyControl(prev, c)
    case FromPresence(p) => ApplyPresence(prev, p)
    case FromSnapshot(s) => Some(ApplySnapshot(prev, s))
  }

  function MergeAll(prev: Option<Room>, ms: seq<Message>): Option<Room>
    decreases |ms|
  {
    if ms == [] then prev else MergeAll(Merge(prev, ms[0]), ms[1..])
  }

  /** Generation, structural and presence revision never decrease in any run of messages. */
  lemma {:induction false} RevisionsNeverDecrease(prev: Room, ms: seq<Message>)
    ensures MergeAll(Some(prev), ms).Some?
    ensures var r := MergeAll(Some(prev), ms).value;
            r.generation >= prev.generation && r.structuralRevision >= prev.structuralRevision
            && PresenceRevision(r) >= PresenceRevision(prev)
    decreases |ms|
  {
    if ms != [] {
      RevisionsNeverDecrease(Merge(Some(prev), ms[0]).value, ms[1..]);
    }
  }

  function Snapshots(ms: seq<Message>): seq<Room> {
    if ms == [] then [] else (if ms[0].FromSnapshot? then [ms[0].snapshot] else []) + Snapshots(ms[1..])
  }

  predicate NewestStructure(prev: Room, snapshots: seq<Room>, revision: nat) {
    prev.structuralRevision <= revision && forall s | s in snapshots :: s.structuralRevision <= revision
  }

  /** The structure is not gated by its revision: after any run of messages the playlist is
      that of the last snapshot, however old, while the structural revision is the newest
      seen. So the client holds the revision of the playlist it holds exactly when the last
      snapshot was the newest. */
  lemma {:induction false} StructureIsNotGated(prev: Room, ms: seq<Message>)
    ensures MergeAll(Some(prev), ms).Some?
    ensures var r, ss := MergeAll(Some(prev), ms).value, Snapshots(ms);
            && NewestStructure(prev, ss, r.structuralRevision)
            && (if ss == [] then r.playlist == prev.playlist && r.structuralRevision == prev.structuralRevision
                else
                  var last := ss[|ss| - 1];
                  && r.playlist == last.playlist
                  && (r.structuralRevision == last.structuralRevision <==> NewestStructure(prev, ss, last.structuralRevision)))
    decreases |ms|
  {
    RevisionsNeverDecrease(prev, ms);
    if ms != [] {
      var next, m := Merge(Some(prev), ms[0]).value, ms[0];
      StructureIsNotGated(next, ms[1..]);
      StructureStep(prev, m);
      var rest := Snapshots(ms[1..]);
      assert Snapshots(ms) == if m.FromSnapshot? then [m.snapshot] + rest else rest;
      hide Merge, Snapshots;
      if m.FromSnapshot? {
        assert forall s :: s in [m.snapshot] + rest <==> s == m.snapshot || s in rest;
      }
    }
  }

  lemma StructureStep(prev: Room, m: Message)
    ensures Merge(Some(prev), m).Some?
    ensures var r := Merge(Some(prev), m).value;
            && r.playlist == (if m.FromSnapshot? then m.snapshot.playlist else prev.playlist)
            && r.structuralRevision == (if m.FromSnapshot? then MaxInt(prev.structuralRevision, m.snapshot.structuralRevision)
                                        else prev.structuralRevision)
  {
  }

  // ---------------------------------------------------------------- authority order

  /** A message that carries authority. */
  datatype AuthorityMessage = A(control: Control) | S(snapshot: Room)

  function Generation(m: AuthorityMessage): nat {
    match m case A(c) => c.generation case S(s) => s.generation
  }

  function PlaybackOf(m: AuthorityMessage): Playback {
    match m case A(c) => c.playback case S(s) => s.playback
  }

  function ApplyAuthority(r: Room, m: AuthorityMessage): Room {
    match m
    case A(c) => ApplyControl(Some(r), c).value
    case S(s) => ApplySnapshot(Some(r), s)
  }

  function ApplyAuthorities(r: Room, ms: seq<AuthorityMessage>): Room
    decreases |ms|
  {
    if ms == [] then r else ApplyAuthorities(ApplyAuthority(r, ms[0]), ms[1..])
  }

  predicate DistinctGenerations(ms: seq<AuthorityMessage>) {
    forall i, j | 0 <= i < j < |ms| :: Generation(ms[i]) != Generation(ms[j])
  }

  /** The one message that decides: the newest, if it is not older than the state. */
  predicate Decides(r: Room, ms: seq<AuthorityMessage>, m: AuthorityMessage) {
    m in ms && Generation(m) >= r.generation && forall n | n in ms :: Generation(n) <= Generation(m)
  }

  /** Playback and generation after any list of messages with distinct generations, and the
      index when that is a snapshot, are those of the deciding message; all are unchanged when
      every message is older than the state. */
  lemma {:induction false} NewestDecides(r: Room, ms: seq<AuthorityMessage>)
    requires DistinctGenerations(ms)
    ensures var t := ApplyAuthorities(r, ms);
            && ((forall n | n in ms :: Generation(n) < r.generation) ==> t.playback == r.playback && t.generation == r.generation)
            && (forall m | Decides(r, ms, m) ::
                  t.generation == Generation(m)
                  && t.playback == (if Generation(m) > r.generation then PlaybackOf(m) else ApplyAuthority(r, m).playback)
                  && (m.S? ==> t.currentIndex == m.snapshot.currentIndex))
            && ((forall n | n in ms :: Generation(n) < r.generation) ==> t.currentIndex == r.currentIndex)
    decreases |ms|
  {
    hide ApplyAuthority, PlaybackOf;
    if ms != [] {
      var first, rest := ms[0], ms[1..];
      var next := ApplyAuthority(r, first);
      FirstIsDistinct(ms);
      hide DistinctGenerations, Generation;
      NewestDecides(next, rest);
      OneAuthority(r, first);
      forall m | Decides(r, ms, m)
        ensures var t := ApplyAuthorities(r, ms);
                t.generation == Generation(m)
                && t.playback == (if Generation(m) > r.generation then PlaybackOf(m) else ApplyAuthority(r, m).playback)
                && (m.S? ==> t.currentIndex == m.snapshot.currentIndex)
      {
        OneAuthority(r, m);
        if m != first {
          assert Decides(next, rest, m);
          if Generation(m) == r.generation {
            PlaybackDependsOnPlayback(r, next, m);
          }
        }
      }
    }
  }

  lemma FirstIsDistinct(ms: seq<AuthorityMessage>)
    requires ms != [] && DistinctGenerations(ms)
    ensures DistinctGenerations(ms[1..]) && forall n | n in ms[1..] :: Generation(n) != Generation(ms[0])
    ensures forall n :: n in ms <==> n == ms[0] || n in ms[1..]
  {
  }

  /** One message: the newer of the two generations, and the playback that goes with it. */
  lemma OneAuthority(r: Room, m: AuthorityMessage)
    ensures var t := ApplyAuthority(r, m);
            && t.generation == MaxInt(r.generation, Generation(m))
            && (Generation(m) > r.generation ==> t.playback == PlaybackOf(m))
            && (Generation(m) < r.generation ==> t.playback == r.playback && t.currentIndex == r.currentIndex)
            && (Generation(m) >= r.generation && m.S? ==> t.currentIndex == m.snapshot.currentIndex)
  {
  }

  /** When a seek preview outlives a snapshot: when it is active, the snapshot has none and is of
      the very generation held. Apart from it the playback is that of the newer message. */
  lemma PreviewOutlivesIff(r: Room, s: Room)
    ensures var t, p := ApplySnapshot(Some(r), s), ApplySnapshot(Some(r), s).playback;
            && t == s.(playback := p, currentIndex := t.currentIndex, generation := t.generation,
                       structuralRevision := t.structuralRevision, presenceRevision := t.presenceRevision)
            && p.(seekPreview := None) == (if s.generation >= r.generation then s.playback else r.playback).(seekPreview := None)
            && (Active(r.playback.seekPreview) && !Active(s.playback.seekPreview) ==>
                  (p.seekPreview == r.playback.seekPreview <==> s.generation <= r.generation))
            && (Active(s.playback.seekPreview) && s.generation >= r.generation ==> p.seekPreview == s.playback.seekPreview)
            && (!Active(r.playback.seekPreview) && s.generation >= r.generation ==> p.seekPreview == s.playback.seekPreview)
  {
  }

  lemma PlaybackDependsOnPlayback(r: Room, s: Room, m: AuthorityMessage)
    requires r.playback == s.playback && r.generation == s.generation
    ensures ApplyAuthority(r, m).playback == ApplyAuthority(s, m).playback
  {
  }

  /** In any two orders the same messages give the same playback and generation. */
  lemma OrderDoesNotMatter(r: Room, ms: seq<AuthorityMessage>, ns: seq<AuthorityMessage>)
    requires multiset(ms) == multiset(ns) && DistinctGenerations(ms) && DistinctGenerations(ns)
    ensures ApplyAuthorities(r, ms).playback == ApplyAuthorities(r, ns).playback
    ensures ApplyAuthorities(r, ms).generation == ApplyAuthorities(r, ns).generation
  {
    NewestDecides(r, ms);
    NewestDecides(r, ns);
    assert forall m :: m in ms <==> m in multiset(ms);
    assert forall m :: m in ns <==> m in multiset(ns);
    if n :| n in ms && Generation(n) >= r.generation {
      var m := Newest(ms, n);
      assert Decides(r, ms, m) && Decides(r, ns, m);
    }
  }

  lemma {:induction false} Newest(ms: seq<AuthorityMessage>, n: AuthorityMessage) returns (m: AuthorityMessage)
    requires n in ms
    ensures m in ms && Generation(m) >= Generation(n) && forall k | k in ms :: Generation(k) <= Generation(m)
    decreases |ms|
  {
    m := ms[0];
    if |ms| > 1 {
      var rest := Newest(ms[1..], ms[1]);
      if Generation(rest) > Generation(m) {
        m := rest;
      }
      assert forall k | k in ms :: k == ms[0] || k in ms[1..];
    }
  }
}
