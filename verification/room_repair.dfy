/** The repair of a whole stored room: security, playlist, participants, action log, playback
    and revisions, field by field. */
module RoomRepair {
  import opened Js
  import opened Repair
  import opened RoomSecurity
  import RoomLog

  /** What the repair depends on besides the room: the clock, a fresh owner id, the limits. */
  datatype Env = Env(now: real, newOwner: string, playlistLimit: nat, participantsLimit: nat, logLimit: nat)

  predicate Sensible(env: Env) {
    env.now > 0.0 && env.newOwner != "" && env.playlistLimit >= 1 && env.participantsLimit >= 1 && env.logLimit >= 1
  }

  // ---------------------------------------------------------------- playlist

  /** The well-typed items; an array element that is no object is `None`. */
  function GoodItems(xs: seq<Option<Item>>): seq<Item> {
    if xs == [] then []
    else if xs[0].Some? && WellTyped(xs[0].value) then [xs[0].value] + GoodItems(xs[1..])
    else GoodItems(xs[1..])
  }

  function MendAll(items: seq<Item>): (r: seq<Item>)
    ensures |r| == |items| && forall i | 0 <= i < |r| :: r[i] == Mended(items[i])
  {
    if items == [] then [] else [Mended(items[0])] + MendAll(items[1..])
  }

  function AllItemFindings(items: seq<Item>): seq<Finding> {
    if items == [] then [] else ItemFindings(items[0]) + AllItemFindings(items[1..])
  }

  function Elements<T>(xs: Option<seq<T>>): seq<T> {
    if xs.Some? then xs.value else []
  }

  function Slots<T>(items: seq<T>): seq<Option<T>> {
    seq(|items|, i requires 0 <= i < |items| => Some(items[i]))
  }

  predicate IsInteger(r: Raw) {
    IsFinite(r) && r.n.value == r.n.value.Floor as real
  }

  /** The index after clamping and repairing it against `len` items. */
  function IndexIn(len: nat, r: Raw): (i: nat)
    ensures i < len || (i == 0 && len == 0)
  {
    if AtLeast(ToNumber(r), len as real) then (if len > 0 then len - 1 else 0)
    else if Below(ToNumber(r), 0.0) || !IsInteger(r) then 0
    else r.n.value.Floor
  }

  /** The index once all but the last `limit` items are gone. */
  function IndexAfterTrim(i: nat, len: nat, limit: nat): nat {
    if len > limit then MaxInt(0, MinInt(i - (len - limit), limit - 1)) else i
  }

  datatype Playlist = Playlist(items: seq<Item>, index: nat)

  function RepairedPlaylist(xs: Option<seq<Option<Item>>>, index: Raw, limit: nat): Playlist {
    var items := MendAll(GoodItems(Elements(xs)));
    Playlist(RoomLog.Newest(items, limit), IndexAfterTrim(IndexIn(|items|, index), |items|, limit))
  }

  function PlaylistFindings(xs: Option<seq<Option<Item>>>, index: Raw, limit: nat): seq<Finding> {
    var items := GoodItems(Elements(xs));
    var clamped := AtLeast(ToNumber(index), |items| as real);
    If(xs.None?, PlaylistRepaired) + AllItemFindings(items)
    + If(clamped, IndexClamped)
    + If(!clamped && (Below(ToNumber(index), 0.0) || !IsInteger(index)), IndexRepaired)
    + If(|items| > limit, PlaylistTrimmed)
  }

  // ---------------------------------------------------------------- participants

  datatype Participant = Participant(userId: Raw, joinedAt: Raw, connectedAt: Raw, lastSeenAt: Raw, rest: int)

  /** One property of the participants object; a value that is no object is `None`. */
  datatype Member = Member(key: string, value: Option<Participant>)

  predicate GoodMember(m: Member) {
    m.key != "" && m.value.Some? && m.value.value.userId.Text?
  }

  function GoodMembers(ms: seq<Member>): seq<Member> {
    if ms == [] then [] else if GoodMember(ms[0]) then [ms[0]] + GoodMembers(ms[1..]) else GoodMembers(ms[1..])
  }

  predicate PositiveNumber(r: Raw) {
    r.Number? && (r.n == PosInf || (r.n.Fin? && r.n.value > 0.0))
  }

  predicate JoinedProperly(p: Participant) {
    PositiveNumber(p.joinedAt) && IsFinite(p.joinedAt)
  }

  function Joined(p: Participant, now: real): Participant {
    if JoinedProperly(p) then p
    else p.(joinedAt := if PositiveNumber(p.connectedAt) then p.connectedAt
                        else if PositiveNumber(p.lastSeenAt) then p.lastSeenAt else Amount(now))
  }

  predicate JoinsLate(m: Member) {
    m.value.Some? && !JoinedProperly(m.value.value)
  }

  function JoinedMember(m: Member, now: real): Member {
    if m.value.Some? then m.(value := Some(Joined(m.value.value, now))) else m
  }

  function JoinAll(ms: seq<Member>, now: real): (r: seq<Member>)
    ensures |r| == |ms| && forall i | 0 <= i < |r| :: r[i] == JoinedMember(ms[i], now)
  {
    if ms == [] then [] else [JoinedMember(ms[0], now)] + JoinAll(ms[1..], now)
  }

  function JoinFindings(ms: seq<Member>): seq<Finding> {
    if ms == [] then [] else If(JoinsLate(ms[0]), JoinedAtRepaired) + JoinFindings(ms[1..])
  }

  lemma {:induction false} GoodMembersAreGood(ms: seq<Member>)
    ensures forall m | m in GoodMembers(ms) :: GoodMember(m) && m in ms
    ensures |GoodMembers(ms)| <= |ms|
    ensures (forall m | m in ms :: GoodMember(m)) ==> GoodMembers(ms) == ms
  {
    if ms != [] {
      GoodMembersAreGood(ms[1..]);
    }
  }

  function Oldest(ms: seq<Member>, limit: nat): seq<Member> {
    if |ms| > limit then ms[..limit] else ms
  }

  function RepairedMembers(ms: Option<seq<Member>>, now: real, limit: nat): seq<Member> {
    var good := GoodMembers(Elements(ms));
    JoinAll(Oldest(good, limit), now)
  }

  function MemberFindings(ms: Option<seq<Member>>, limit: nat): seq<Finding> {
    var all := Elements(ms);
    var good := GoodMembers(all);
    If(ms.None?, ParticipantsRepaired) + If(|good| != |all|, ParticipantsCleaned)
    + JoinFindings(Oldest(good, limit)) + If(|good| > limit, ParticipantsTrimmed)
  }

  // ---------------------------------------------------------------- action log

  datatype LogEntry = LogEntry(action: Raw, actorUserId: Raw, at: Raw, rest: int)

  predicate YoungEnough(e: LogEntry, cutoff: real) {
    e.at.Number? && AtLeast(e.at.n, cutoff)
  }

  predicate GoodEntry(e: LogEntry, cutoff: real) {
    e.action.Text? && e.actorUserId.Text? && YoungEnough(e, cutoff) && RoomLog.Tracked(e.action.text)
  }

  function GoodEntries(es: seq<Option<LogEntry>>, cutoff: real): (r: seq<LogEntry>)
    ensures |r| <= |es| && forall i | 0 <= i < |r| :: GoodEntry(r[i], cutoff)
  {
    if es == [] then []
    else if es[0].Some? && GoodEntry(es[0].value, cutoff) then [es[0].value] + GoodEntries(es[1..], cutoff)
    else GoodEntries(es[1..], cutoff)
  }

  function RepairedLog(es: Option<seq<Option<LogEntry>>>, now: real, limit: nat): seq<LogEntry> {
    RoomLog.Newest(GoodEntries(Elements(es), now - RoomLog.MAX_AGE_MS), limit)
  }

  function LogFindings(es: Option<seq<Option<LogEntry>>>, now: real, limit: nat): seq<Finding> {
    var good := GoodEntries(Elements(es), now - RoomLog.MAX_AGE_MS);
    if es.None? then [ActionLogRepaired]
    else If(|good| != |es.value|, ActionLogFiltered) + If(|good| > limit, ActionLogTrimmed)
  }

  // ---------------------------------------------------------------- playback

  datatype Playback = Playback(paused: Raw, playbackRate: Raw, timelineAnchorMs: Raw, serverNowMs: Raw, videoLoop: Raw, playlistLoop: Raw,
                               hasShuffle: bool, rest: int)

  function DefaultPlayback(now: real): Playback {
    Playback(Boolean(true), Amount(1.0), Amount(0.0), Amount(now), Word("off"), Word("off"), false, 0)
  }

  function NormalizeFinite(r: Raw, fallback: real): real {
    if IsFinite(r) then r.n.value else fallback
  }

  predicate KnownLoop(r: Raw) {
    Is(r, "off") || Is(r, "once") || Is(r, "always")
  }

  function Sanitized(p: Playback, now: real): Playback {
    p.(paused := Boolean(Truthy(p.paused)),
       playbackRate := Amount(Min(3.0, Max(0.25, NormalizeFinite(p.playbackRate, 1.0)))),
       timelineAnchorMs := Amount(Max(0.0, NormalizeFinite(p.timelineAnchorMs, 0.0))),
       serverNowMs := Amount(Max(0.0, NormalizeFinite(p.serverNowMs, now))),
       videoLoop := if KnownLoop(p.videoLoop) then p.videoLoop else Word("off"),
       playlistLoop := if KnownLoop(p.playlistLoop) then p.playlistLoop else Word("off"))
  }

  function PlaybackFindings(p: Option<Playback>): seq<Finding> {
    if p.None? then [PlaybackObjectRepaired]
    else If(!KnownLoop(p.value.videoLoop), PlaybackRepaired) + If(!KnownLoop(p.value.playlistLoop), PlaybackRepaired)
  }

  function RepairedPlayback(p: Option<Playback>, now: real): Playback {
    Sanitized(if p.Some? then p.value else DefaultPlayback(now), now).(hasShuffle := false)
  }

  // ---------------------------------------------------------------- the room

  datatype State = State(roomId: Raw, ownerId: Raw, security: Option<Security>, playlist: Option<seq<Option<Item>>>, currentIndex: Raw,
                         participants: Option<seq<Member>>, actionLog: Option<seq<Option<LogEntry>>>, playback: Option<Playback>,
                         hasHistory: bool, updatedAt: Raw, generation: Raw, structuralRevision: Raw)

  predicate NonNegative(r: Raw) {
    IsFinite(r) && r.n.value >= 0.0
  }

  predicate Positive(r: Raw) {
    IsFinite(r) && r.n.value > 0.0
  }

  function OrZero(r: Raw): Raw {
    if NonNegative(r) then r else Amount(0.0)
  }

  function Repaired(s: State, env: Env): State {
    var pl := RepairedPlaylist(s.playlist, s.currentIndex, env.playlistLimit);
    State(s.roomId, if NonEmptyText(s.ownerId) then s.ownerId else Word(env.newOwner),
          Some(RepairedSecurity(s.security)),
          Some(Slots(pl.items)), Amount(pl.index as real),
          Some(RepairedMembers(s.participants, env.now, env.participantsLimit)),
          Some(Slots(RepairedLog(s.actionLog, env.now, env.logLimit))),
          Some(RepairedPlayback(s.playback, env.now)), false,
          if Positive(s.updatedAt) then s.updatedAt else Amount(env.now),
          OrZero(s.generation), OrZero(s.structuralRevision))
  }

  function StampFindings(updatedAt: Raw, generation: Raw, structuralRevision: Raw): seq<Finding> {
    If(!Positive(updatedAt), UpdatedAtRepaired)
    + If(!NonNegative(generation), GenerationRepaired) + If(!NonNegative(structuralRevision), StructuralRevisionRepaired)
  }

  function OwnerFindings(roomId: Raw, ownerId: Raw, security: Option<Security>): seq<Finding> {
    If(!NonEmptyText(roomId), RoomIdInvalid) + If(!NonEmptyText(ownerId), OwnerRepaired) + SecurityFindings(security)
  }

  function Findings(s: State, env: Env): seq<Finding> {
    OwnerFindings(s.roomId, s.ownerId, s.security)
    + PlaylistFindings(s.playlist, s.currentIndex, env.playlistLimit)
    + MemberFindings(s.participants, env.participantsLimit)
    + LogFindings(s.actionLog, env.now, env.logLimit)
    + PlaybackFindings(s.playback)
    + If(s.hasHistory, HistoryStripped) + If(s.playback.Some? && s.playback.value.hasShuffle, ShuffleStripped)
    + StampFindings(s.updatedAt, s.generation, s.structuralRevision)
  }

  // ---------------------------------------------------------------- the repair itself

  class Room {
    var roomId: Raw
    var ownerId: Raw
    var security: Option<Security>
    var playlist: Option<seq<Option<Item>>>
    var currentIndex: Raw
    var participants: Option<seq<Member>>
    var actionLog: Option<seq<Option<LogEntry>>>
    var playback: Option<Playback>
    var hasHistory: bool
    var updatedAt: Raw
    var generation: Raw
    var structuralRevision: Raw

    ghost function View(): State
      reads this
    {
      State(roomId, ownerId, security, playlist, currentIndex, participants, actionLog, playback, hasHistory,
            updatedAt, generation, structuralRevision)
    }

    constructor (s: State)
      ensures View() == s
    {
      roomId, ownerId, security := s.roomId, s.ownerId, s.security;
      playlist, currentIndex := s.playlist, s.currentIndex;
      participants, actionLog, playback := s.participants, s.actionLog, s.playback;
      hasHistory, updatedAt, generation, structuralRevision := s.hasHistory, s.updatedAt, s.generation, s.structuralRevision;
    }

    method RepairOwner(env: Env) returns (findings: seq<Finding>)
      modifies this`ownerId, this`security
      ensures ownerId == if NonEmptyText(old(ownerId)) then old(ownerId) else Word(env.newOwner)
      ensures security == Some(RepairedSecurity(old(security)))
      ensures findings == OwnerFindings(roomId, old(ownerId), old(security))
    {
      hide RepairedSecurity, SecurityFindings;
      findings := If(!NonEmptyText(roomId), RoomIdInvalid);
      findings := findings + If(!NonEmptyText(ownerId), OwnerRepaired);
      if !NonEmptyText(ownerId) {
        ownerId := Word(env.newOwner);
      }
      var some := RepairSecurity();
      findings := findings + some;
    }

    method RepairSecurity() returns (findings: seq<Finding>)
      modifies this`security
      ensures security == Some(RepairedSecurity(old(security)))
      ensures findings == SecurityFindings(old(security))
    {
      if security.None? {
        security := Some(DefaultSecurity);
        return [SecurityRepaired];
      }
      var missing := Enabled(security.value) && !HasSecrets(security.value);
      var normalized := Coerced(security.value);
      if Enabled(normalized) && !HasSecrets(normalized) {
        normalized := Disabled(normalized);
      }
      security := Some(normalized);
      findings := If(missing, PasswordDisabled);
    }

    method RepairPlaylistState(env: Env) returns (findings: seq<Finding>)
      modifies this`playlist, this`currentIndex
      ensures var r := RepairedPlaylist(old(playlist), old(currentIndex), env.playlistLimit);
              playlist == Some(Slots(r.items)) && currentIndex == Amount(r.index as real)
      ensures findings == PlaylistFindings(old(playlist), old(currentIndex), env.playlistLimit)
    {
      findings := If(playlist.None?, PlaylistRepaired);
      if playlist.None? {
        playlist := Some([]);
      }
      var items := KeepWellTyped(playlist.value);
      var more: seq<Finding>;
      items, more := MendItems(items);
      findings := findings + more;
      var clamped := AtLeast(ToNumber(currentIndex), |items| as real);
      findings := findings + If(clamped, IndexClamped);
      if clamped {
        currentIndex := Amount(MaxInt(0, |items| - 1) as real);
      }
      var bad := Below(ToNumber(currentIndex), 0.0) || !IsInteger(currentIndex);
      assert bad ==> !clamped;
      findings := findings + If(bad, IndexRepaired);
      if bad {
        currentIndex := Amount(0.0);
      }
      var index := currentIndex.n.value.Floor;
      findings := findings + If(|items| > env.playlistLimit, PlaylistTrimmed);
      if |items| > env.playlistLimit {
        var overflow := |items| - env.playlistLimit;
        items := items[overflow..];
        index := MaxInt(0, MinInt(index - overflow, |items| - 1));
        currentIndex := Amount(index as real);
      }
      playlist := Some(Slots(items));
    }

    method RepairParticipants(env: Env) returns (findings: seq<Finding>)
      modifies this`participants
      ensures participants == Some(RepairedMembers(old(participants), env.now, env.participantsLimit))
      ensures findings == MemberFindings(old(participants), env.participantsLimit)
    {
      findings := If(participants.None?, ParticipantsRepaired);
      if participants.None? {
        participants := Some([]);
      }
      var entries := KeepGoodMembers(participants.value);
      findings := findings + If(|entries| != |participants.value|, ParticipantsCleaned);
      var kept := if |entries| > env.participantsLimit then entries[..env.participantsLimit] else entries;
      var joined, more := FillJoinedAt(kept, env.now);
      participants := Some(joined);
      findings := findings + more + If(|entries| > env.participantsLimit, ParticipantsTrimmed);
    }

    method RepairActionLog(env: Env) returns (findings: seq<Finding>)
      modifies this`actionLog
      ensures actionLog == Some(Slots(RepairedLog(old(actionLog), env.now, env.logLimit)))
      ensures findings == LogFindings(old(actionLog), env.now, env.logLimit)
    {
      if actionLog.None? {
        actionLog := Some([]);
        assert Slots<LogEntry>([]) == [];
        return [ActionLogRepaired];
      }
      var cutoff := env.now - RoomLog.MAX_AGE_MS;
      var valid := KeepGoodEntries(actionLog.value, cutoff);
      findings := If(|valid| != |actionLog.value|, ActionLogFiltered);
      var pruned := KeepYoung(valid, cutoff);
      if |pruned| > env.logLimit {
        pruned := pruned[|pruned| - env.logLimit..];
      }
      findings := findings + If(|pruned| < |valid|, ActionLogTrimmed);
      actionLog := Some(Slots(pruned));
    }

    method SanitizePlayback(now: real) returns (repairs: nat)
      modifies this`playback
      ensures playback == Some(if old(playback).Some? then Sanitized(old(playback).value, now) else DefaultPlayback(now))
      ensures repairs == if old(playback).Some? then |PlaybackFindings(old(playback))| else 1
    {
      if playback.None? {
        playback := Some(DefaultPlayback(now));
        return 1;
      }
      hide Is;
      repairs := 0;
      var p := playback.value;
      p := p.(paused := Boolean(Truthy(p.paused)));
      p := p.(playbackRate := Amount(Min(3.0, Max(0.25, NormalizeFinite(p.playbackRate, 1.0)))));
      p := p.(timelineAnchorMs := Amount(Max(0.0, NormalizeFinite(p.timelineAnchorMs, 0.0))));
      p := p.(serverNowMs := Amount(Max(0.0, NormalizeFinite(p.serverNowMs, now))));
      if !KnownLoop(p.videoLoop) {
        p := p.(videoLoop := Word("off"));
        repairs := repairs + 1;
      }
      if !KnownLoop(p.playlistLoop) {
        p := p.(playlistLoop := Word("off"));
        repairs := repairs + 1;
      }
      playback := Some(p);
    }

    method RepairPlayback(now: real) returns (findings: seq<Finding>, hadShuffle: bool)
      modifies this`playback
      ensures playback == Some(RepairedPlayback(old(playback), now))
      ensures findings == PlaybackFindings(old(playback))
      ensures hadShuffle == (old(playback).Some? && old(playback).value.hasShuffle)
    {
      hide Sanitized, PlaybackFindings;
      DefaultNeedsNothing(now);
      var missing := playback.None?;
      findings := if missing then PlaybackFindings(None) else [];
      if missing {
        playback := Some(DefaultPlayback(now));
      }
      FindingsAreRepeated(playback);
      StripKeeps(playback, now);
      var repairs := SanitizePlayback(now);
      findings := findings + seq(repairs, _ => PlaybackRepaired);
      hadShuffle := playback.value.hasShuffle;
      playback := Some(playback.value.(hasShuffle := false));
    }

    method RepairStamps(now: real) returns (findings: seq<Finding>)
      modifies this`updatedAt, this`generation, this`structuralRevision
      ensures updatedAt == if Positive(old(updatedAt)) then old(updatedAt) else Amount(now)
      ensures generation == OrZero(old(generation)) && structuralRevision == OrZero(old(structuralRevision))
      ensures findings == StampFindings(old(updatedAt), old(generation), old(structuralRevision))
    {
      findings := If(!Positive(updatedAt), UpdatedAtRepaired);
      if !Positive(updatedAt) {
        updatedAt := Amount(now);
      }
      findings := findings + If(!NonNegative(generation), GenerationRepaired);
      if !NonNegative(generation) {
        generation := Amount(0.0);
      }
      findings := findings + If(!NonNegative(structuralRevision), StructuralRevisionRepaired);
      if !NonNegative(structuralRevision) {
        structuralRevision := Amount(0.0);
      }
    }

    /** `repairCleanupAndCheckRoomState`. */
    method RepairAndCheck(env: Env) returns (findings: seq<Finding>)
      modifies this
      ensures View() == Repaired(old(View()), env)
      ensures findings == Findings(old(View()), env)
    {
      hide RepairedPlaylist, PlaylistFindings, RepairedMembers, MemberFindings, RepairedLog, LogFindings;
      hide RepairedPlayback, PlaybackFindings, StampFindings, If, Slots, NonEmptyText, Positive, NonNegative;
      hide RepairedSecurity, OwnerFindings;
      findings := RepairOwner(env);
      var some := RepairPlaylistState(env);
      findings := findings + some;
      some := RepairParticipants(env);
      findings := findings + some;
      some := RepairActionLog(env);
      findings := findings + some;
      var hadShuffle: bool;
      some, hadShuffle := RepairPlayback(env.now);
      findings := findings + some;
      findings := findings + If(hasHistory, HistoryStripped);
      hasHistory := false;
      findings := findings + If(hadShuffle, ShuffleStripped);
      some := RepairStamps(env.now);
      findings := findings + some;
    }
  }

  // ---------------------------------------------------------------- the loops

  method KeepWellTyped(xs: seq<Option<Item>>) returns (items: seq<Item>)
    ensures items == GoodItems(xs)
  {
    items := [];
    assert xs[0..] == xs;
    for i := 0 to |xs|
      invariant items + GoodItems(xs[i..]) == GoodItems(xs)
    {
      assert xs[i..][1..] == xs[i + 1..];
      if xs[i].Some? && WellTyped(xs[i].value) {
        items := items + [xs[i].value];
      }
    }
  }

  method MendItems(given: seq<Item>) returns (items: seq<Item>, findings: seq<Finding>)
    ensures items == MendAll(given) && findings == AllItemFindings(given)
  {
    hide Mended, ItemFindings;
    items, findings := given, [];
    assert given[0..] == given;
    for i := 0 to |given|
      invariant |items| == |given| && items[..i] == MendAll(given)[..i] && items[i..] == given[i..]
      invariant findings + AllItemFindings(given[i..]) == AllItemFindings(given)
    {
      assert given[i..][1..] == given[i + 1..] && given[i] == items[i..][0];
      var item, more := RepairPlaylistItemFields(items[i]);
      items := items[i := item];
      findings := findings + more;
    }
  }

  method KeepGoodMembers(ms: seq<Member>) returns (good: seq<Member>)
    ensures good == GoodMembers(ms)
  {
    good := [];
    assert ms[0..] == ms;
    for i := 0 to |ms|
      invariant good + GoodMembers(ms[i..]) == GoodMembers(ms)
    {
      assert ms[i..][1..] == ms[i + 1..];
      if GoodMember(ms[i]) {
        good := good + [ms[i]];
      }
    }
  }

  method FillJoinedAt(ms: seq<Member>, now: real) returns (joined: seq<Member>, findings: seq<Finding>)
    ensures joined == JoinAll(ms, now) && findings == JoinFindings(ms)
  {
    hide JoinsLate, JoinedMember;
    joined, findings := ms, [];
    assert ms[0..] == ms;
    for i := 0 to |ms|
      invariant |joined| == |ms| && joined[..i] == JoinAll(ms, now)[..i] && joined[i..] == ms[i..]
      invariant findings + JoinFindings(ms[i..]) == JoinFindings(ms)
    {
      assert ms[i..][1..] == ms[i + 1..] && ms[i] == joined[i..][0];
      findings := findings + If(JoinsLate(joined[i]), JoinedAtRepaired);
      if JoinsLate(joined[i]) {
        joined := joined[i := FillOne(joined[i], now)];
      } else {
        OnTime(joined[i], now);
      }
      assert joined[i] == JoinedMember(ms[i], now);
    }
  }

  lemma OnTime(m: Member, now: real)
    requires !JoinsLate(m)
    ensures JoinedMember(m, now) == m
  {
  }

  function FillOne(m: Member, now: real): (r: Member)
    requires JoinsLate(m)
    ensures r == JoinedMember(m, now)
  {
    var p := m.value.value;
    m.(value := Some(p.(joinedAt := if PositiveNumber(p.connectedAt) then p.connectedAt
                                    else if PositiveNumber(p.lastSeenAt) then p.lastSeenAt else Amount(now))))
  }

  method KeepGoodEntries(es: seq<Option<LogEntry>>, cutoff: real) returns (good: seq<LogEntry>)
    ensures good == GoodEntries(es, cutoff)
  {
    hide GoodEntry;
    good := [];
    assert es[0..] == es;
    for i := 0 to |es|
      invariant good + GoodEntries(es[i..], cutoff) == GoodEntries(es, cutoff)
    {
      assert es[i..][1..] == es[i + 1..];
      if es[i].Some? && GoodEntry(es[i].value, cutoff) {
        good := good + [es[i].value];
      }
    }
  }

  /** The age filter of the pruning, which finds nothing left to do. */
  method KeepYoung(es: seq<LogEntry>, cutoff: real) returns (young: seq<LogEntry>)
    requires forall i | 0 <= i < |es| :: GoodEntry(es[i], cutoff)
    ensures young == es
  {
    young := [];
    for i := 0 to |es|
      invariant young == es[..i]
    {
      if YoungEnough(es[i], cutoff) {
        young := young + [es[i]];
      }
    }
  }

  lemma DefaultNeedsNothing(now: real)
    ensures PlaybackFindings(Some(DefaultPlayback(now))) == [] && !DefaultPlayback(now).hasShuffle
  {
  }

  lemma FindingsAreRepeated(p: Option<Playback>)
    requires p.Some?
    ensures PlaybackFindings(p) == seq(|PlaybackFindings(p)|, _ => PlaybackRepaired)
  {
  }

  lemma StripKeeps(p: Option<Playback>, now: real)
    requires p.Some?
    ensures Sanitized(p.value, now).hasShuffle == p.value.hasShuffle
  {
  }

  // ---------------------------------------------------------------- what the repair establishes

  predicate PlaybackFits(p: Playback) {
    && p.paused.Boolean? && !p.hasShuffle
    && IsFinite(p.playbackRate) && 0.25 <= p.playbackRate.n.value <= 3.0
    && NonNegative(p.timelineAnchorMs) && NonNegative(p.serverNowMs)
    && KnownLoop(p.videoLoop) && KnownLoop(p.playlistLoop)
  }

  predicate PlaylistFits(items: seq<Item>, index: nat, limit: nat) {
    && |items| <= limit && (forall i | 0 <= i < |items| :: ItemFits(items[i]))
    && (index < |items| || (index == 0 && items == []))
  }

  predicate MembersFit(ms: seq<Member>, limit: nat) {
    && |ms| <= limit
    && forall i | 0 <= i < |ms| :: GoodMember(ms[i]) && PositiveNumber(ms[i].value.value.joinedAt)
  }

  predicate LogFits(es: seq<LogEntry>, cutoff: real, limit: nat) {
    |es| <= limit && forall i | 0 <= i < |es| :: GoodEntry(es[i], cutoff)
  }

  /** The room invariant, with the items, index and log it is about. */
  predicate Fits(s: State, items: seq<Item>, index: nat, log: seq<LogEntry>, env: Env) {
    && s.security.Some? && SecurityFits(s.security.value)
    && s.playlist == Some(Slots(items)) && s.currentIndex == Amount(index as real) && PlaylistFits(items, index, env.playlistLimit)
    && s.participants.Some? && MembersFit(s.participants.value, env.participantsLimit)
    && s.actionLog == Some(Slots(log)) && LogFits(log, env.now - RoomLog.MAX_AGE_MS, env.logLimit)
    && s.playback.Some? && PlaybackFits(s.playback.value)
    && NonEmptyText(s.ownerId) && !s.hasHistory && Positive(s.updatedAt) && NonNegative(s.generation) && NonNegative(s.structuralRevision)
  }

  lemma {:induction false} GoodItemsAreTyped(xs: seq<Option<Item>>)
    ensures forall i | 0 <= i < |GoodItems(xs)| :: WellTyped(GoodItems(xs)[i])
  {
    hide WellTyped;
    if xs != [] {
      GoodItemsAreTyped(xs[1..]);
    }
  }

  lemma PlaylistIsRepaired(xs: Option<seq<Option<Item>>>, index: Raw, limit: nat)
    requires limit >= 1
    ensures var r := RepairedPlaylist(xs, index, limit); PlaylistFits(r.items, r.index, limit)
  {
    var good := GoodItems(Elements(xs));
    GoodItemsAreTyped(Elements(xs));
    hide GoodItems, WellTyped, Mended, ItemFits, IndexIn;
    forall i | 0 <= i < |good|
      ensures ItemFits(Mended(good[i]))
    {
      MendingSettles(good[i]);
    }
  }

  lemma MembersAreRepaired(ms: Option<seq<Member>>, now: real, limit: nat)
    requires now > 0.0
    ensures MembersFit(RepairedMembers(ms, now, limit), limit)
  {
    var good := GoodMembers(Elements(ms));
    GoodMembersAreGood(Elements(ms));
    hide GoodMembers, JoinedMember, PositiveNumber;
    var some := Oldest(good, limit);
    forall i | 0 <= i < |some|
      ensures var m := JoinedMember(some[i], now); GoodMember(m) && PositiveNumber(m.value.value.joinedAt)
    {
      assert some[i] == good[i] && good[i] in good;
      JoinedIsGood(some[i], now);
    }
  }

  lemma JoinedIsGood(m: Member, now: real)
    requires GoodMember(m) && now > 0.0
    ensures var j := JoinedMember(m, now); GoodMember(j) && PositiveNumber(j.value.value.joinedAt)
  {
  }

  lemma PlaybackIsRepaired(p: Option<Playback>, now: real)
    ensures PlaybackFits(RepairedPlayback(p, now))
  {
  }

  /** From any malformed room the repaired one is within its limits and well formed. */
  lemma RepairEstablishesTheInvariant(s: State, env: Env)
    requires Sensible(env)
    ensures var r := RepairedPlaylist(s.playlist, s.currentIndex, env.playlistLimit);
            Fits(Repaired(s, env), r.items, r.index, RepairedLog(s.actionLog, env.now, env.logLimit), env)
  {
    PlaylistIsRepaired(s.playlist, s.currentIndex, env.playlistLimit);
    MembersAreRepaired(s.participants, env.now, env.participantsLimit);
    PlaybackIsRepaired(s.playback, env.now);
    SecuritySettles(s.security);
    hide RepairedSecurity, SecurityFits;
    hide PlaylistFits, MembersFit, PlaybackFits, RepairedPlaylist, RepairedMembers, RepairedPlayback, GoodEntries, GoodEntry;
  }

  // ---------------------------------------------------------------- what survives

  /** A finite number stays, or goes to the nearer end of the range; anything else becomes the
      default. */
  predicate Nearest(repaired: Raw, given: Raw, lo: real, hi: Num, default_: real) {
    repaired == Amount(if !IsFinite(given) then default_
                       else if given.n.value < lo then lo
                       else if hi.Fin? && given.n.value > hi.value then hi.value
                       else given.n.value)
  }

  /** A whole index stays, or goes to the nearer end of the playlist; any number at or past the end
      goes there, and everything else, fractions within the playlist too, to the front. */
  lemma IndexIsNearest(len: nat, r: Raw, other: nat)
    ensures var i := IndexIn(len, r);
            && (IsInteger(r) && 0.0 <= r.n.value < len as real ==> Amount(i as real) == r)
            && (IsInteger(r) && other < len ==> Abs(r.n.value - i as real) <= Abs(r.n.value - other as real))
            && (AtLeast(ToNumber(r), len as real) ==> i == MaxInt(0, len - 1))
            && (!IsInteger(r) && !AtLeast(ToNumber(r), len as real) ==> i == 0)
  {
  }

  /** A repair touches only what is wrong: every field that fits survives, however malformed the
      others are, and one that does not becomes its default. */
  lemma FittingFieldsSurvive(s: State, env: Env)
    ensures var r := Repaired(s, env);
            && r.roomId == s.roomId
            && r.ownerId == (if NonEmptyText(s.ownerId) then s.ownerId else Word(env.newOwner))
            && (Positive(s.updatedAt) ==> r.updatedAt == s.updatedAt) && (!Positive(s.updatedAt) ==> r.updatedAt == Amount(env.now))
            && (if NonNegative(s.generation) then r.generation == s.generation else r.generation == Amount(0.0))
            && (if NonNegative(s.structuralRevision) then r.structuralRevision == s.structuralRevision
                else r.structuralRevision == Amount(0.0))
            && (s.playback.Some? ==>
                  var p, q := s.playback.value, r.playback.value;
                  && q.paused == Boolean(Truthy(p.paused)) && q.rest == p.rest
                  && (KnownLoop(p.videoLoop) ==> q.videoLoop == p.videoLoop)
                  && (KnownLoop(p.playlistLoop) ==> q.playlistLoop == p.playlistLoop)
                  && Nearest(q.playbackRate, p.playbackRate, 0.25, Fin(3.0), 1.0)
                  && Nearest(q.timelineAnchorMs, p.timelineAnchorMs, 0.0, PosInf, 0.0)
                  && (env.now >= 0.0 ==> Nearest(q.serverNowMs, p.serverNowMs, 0.0, PosInf, env.now)))
  {
    hide RepairedPlaylist, RepairedMembers, RepairedLog, RepairedSecurity;
  }

  /** A participant with an id keeps everything but a joining time that is no positive number,
      as long as the room is not full; that becomes the time of connecting, or of being seen
      last, or now. */
  lemma MembersSurvive(ms: seq<Member>, now: real, limit: nat, m: Member)
    requires m in ms && GoodMember(m) && |GoodMembers(ms)| <= limit
    ensures var p := m.value.value;
            var joinedAt := if JoinedProperly(p) then p.joinedAt else if PositiveNumber(p.connectedAt) then p.connectedAt
                            else if PositiveNumber(p.lastSeenAt) then p.lastSeenAt else Amount(now);
            m.(value := Some(p.(joinedAt := joinedAt))) in RepairedMembers(Some(ms), now, limit)
  {
    GoodOnesAreKept(ms, m);
    var good, all := GoodMembers(ms), RepairedMembers(Some(ms), now, limit);
    var i :| 0 <= i < |good| && good[i] == m;
    assert all[i] == JoinedMember(m, now);
  }

  lemma {:induction false} GoodOnesAreKept(ms: seq<Member>, m: Member)
    requires m in ms && GoodMember(m)
    ensures m in GoodMembers(ms)
    decreases |ms|
  {
    if ms[0] != m {
      GoodOnesAreKept(ms[1..], m);
    }
  }

  /** A tracked entry with its fields in place that is at most an hour old stays in the log, as
      long as it is among the newest. */
  lemma EntriesSurvive(es: seq<Option<LogEntry>>, now: real, limit: nat, e: LogEntry)
    requires Some(e) in es && GoodEntry(e, now - 3600_000.0) && |GoodEntries(es, now - 3600_000.0)| <= limit
    ensures e in RepairedLog(Some(es), now, limit)
  {
    GoodEntryIsKept(es, now - 3600_000.0, e);
  }

  lemma {:induction false} GoodEntryIsKept(es: seq<Option<LogEntry>>, cutoff: real, e: LogEntry)
    requires Some(e) in es && GoodEntry(e, cutoff)
    ensures e in GoodEntries(es, cutoff)
    decreases |es|
  {
    hide GoodEntry;
    if es[0] != Some(e) {
      GoodEntryIsKept(es[1..], cutoff, e);
    }
  }

  // ---------------------------------------------------------------- repairing again

  lemma {:induction false} SlotsAreGoodItems(items: seq<Item>)
    requires forall i | 0 <= i < |items| :: ItemFits(items[i])
    ensures GoodItems(Slots(items)) == items && MendAll(items) == items && AllItemFindings(items) == []
    decreases |items|
  {
    if items != [] {
      MendingSettles(items[0]);
      hide Mended, ItemFits, ItemFindings;
      assert Slots(items)[1..] == Slots(items[1..]);
      SlotsAreGoodItems(items[1..]);
    }
  }

  lemma {:induction false} SlotsAreGoodEntries(es: seq<LogEntry>, cutoff: real)
    requires forall i | 0 <= i < |es| :: GoodEntry(es[i], cutoff)
    ensures GoodEntries(Slots(es), cutoff) == es
    decreases |es|
  {
    hide GoodEntry;
    if es != [] {
      assert Slots(es)[1..] == Slots(es[1..]);
      SlotsAreGoodEntries(es[1..], cutoff);
    }
  }

  lemma FittingPlaylistStays(items: seq<Item>, index: nat, limit: nat)
    requires PlaylistFits(items, index, limit)
    ensures RepairedPlaylist(Some(Slots(items)), Amount(index as real), limit) == Playlist(items, index)
    ensures PlaylistFindings(Some(Slots(items)), Amount(index as real), limit) == If(items == [], IndexClamped)
  {
    SlotsAreGoodItems(items);
    assert IsInteger(Amount(index as real)) by { assert (index as real).Floor == index; }
  }

  lemma FittingPlaybackStays(p: Playback, now: real)
    requires PlaybackFits(p)
    ensures RepairedPlayback(Some(p), now) == p && PlaybackFindings(Some(p)) == []
  {
  }

  predicate JoinedAtIsFinite(ms: seq<Member>) {
    forall m | m in ms :: m.value.Some? ==> IsFinite(m.value.value.joinedAt)
  }

  lemma {:induction false} NoJoinFindings(ms: seq<Member>)
    requires forall m | m in ms :: GoodMember(m) && PositiveNumber(m.value.value.joinedAt)
    ensures JoinFindings(ms) == [] <==> JoinedAtIsFinite(ms)
  {
    if ms != [] {
      NoJoinFindings(ms[1..]);
      assert forall m | m in ms :: m == ms[0] || m in ms[1..];
    }
  }

  /** Joining again changes nothing: an infinite time is filled again with the same time. */
  lemma JoinedTwice(m: Member, now: real)
    ensures JoinedMember(JoinedMember(m, now), now) == JoinedMember(m, now)
  {
  }

  lemma RepairedMembersStay(ms: Option<seq<Member>>, now: real, limit: nat)
    requires now > 0.0
    ensures var r := RepairedMembers(ms, now, limit);
            && RepairedMembers(Some(r), now, limit) == r
            && (MemberFindings(Some(r), limit) == [] <==> JoinedAtIsFinite(r))
  {
    var some := Oldest(GoodMembers(Elements(ms)), limit);
    var r := RepairedMembers(ms, now, limit);
    MembersAreRepaired(ms, now, limit);
    assert forall m | m in r :: GoodMember(m) && PositiveNumber(m.value.value.joinedAt);
    GoodMembersAreGood(r);
    assert GoodMembers(r) == r && Oldest(r, limit) == r;
    NoJoinFindings(r);
    hide GoodMembers, GoodMember, JoinedMember, PositiveNumber;
    forall i | 0 <= i < |r|
      ensures JoinAll(r, now)[i] == r[i]
    {
      JoinedTwice(some[i], now);
    }
    assert JoinAll(r, now) == r;
  }

  /** A second repair at the same time changes no state. It reports nothing exactly when the
      room id is valid, the playlist is not empty and every joining time is finite: an empty
      playlist is clamped on every repair, and a bad room id is reported but never repaired. */
  lemma RepairIsIdempotent(s: State, env: Env, again: Env)
    requires Sensible(env) && again == env.(newOwner := again.newOwner)
    ensures Repaired(Repaired(s, env), again) == Repaired(s, env)
    ensures var t := Repaired(s, env);
            Findings(t, again) == []
            <==> NonEmptyText(s.roomId) && t.playlist != Some([]) && JoinedAtIsFinite(t.participants.value)
  {
    var t := Repaired(s, env);
    var pl, log := RepairedPlaylist(s.playlist, s.currentIndex, env.playlistLimit), RepairedLog(s.actionLog, env.now, env.logLimit);
    RepairEstablishesTheInvariant(s, env);
    FittingPlaylistStays(pl.items, pl.index, env.playlistLimit);
    RepairedMembersStay(s.participants, env.now, env.participantsLimit);
    SlotsAreGoodEntries(log, env.now - RoomLog.MAX_AGE_MS);
    FittingPlaybackStays(t.playback.value, env.now);
    SecuritySettles(s.security);
    assert RepairedLog(t.actionLog, env.now, env.logLimit) == log && LogFindings(t.actionLog, env.now, env.logLimit) == [];
    assert t.playlist == Some([]) <==> pl.items == [] by { assert |Slots(pl.items)| == |pl.items|; }
    hide RepairedPlaylist, RepairedMembers, RepairedLog, RepairedPlayback, PlaylistFindings, MemberFindings, LogFindings, PlaybackFindings;
    hide RepairedSecurity, SecurityFindings, SecurityFits, Slots, PlaybackFits, PlaylistFits, MembersFit, LogFits, JoinedAtIsFinite;
    StampsStay(s.updatedAt, s.generation, s.structuralRevision, env.now);
  }

  lemma StampsStay(updatedAt: Raw, generation: Raw, structuralRevision: Raw, now: real)
    requires now > 0.0
    ensures var u := if Positive(updatedAt) then updatedAt else Amount(now);
            StampFindings(u, OrZero(generation), OrZero(structuralRevision)) == []
  {
  }

  // ---------------------------------------------------------------- the current item

  /** What is current after a repair, for every stored playlist and index: the well-typed item
      at the clamped index, or the first one kept when that is trimmed away. */
  lemma TrimmingKeepsTheCurrentItem(xs: seq<Option<Item>>, index: Raw, limit: nat)
    requires limit >= 1
    ensures var r, good := RepairedPlaylist(Some(xs), index, limit), GoodItems(xs);
            var overflow := MaxInt(0, |good| - limit);
            && r.items == MendAll(good)[overflow..]
            && (good != [] ==>
                  var i := MaxInt(overflow, IndexIn(|good|, index));
                  i < |good| && overflow + r.index == i && r.items[r.index] == Mended(good[i]))
  {
    hide RepairedPlaylist, GoodItems, WellTyped, Mended, RoomLog.Newest, IndexAfterTrim, IndexIn;
    var good := GoodItems(xs);
    RepairedFrom(xs, index, limit);
    if good != [] {
      TrimOf(MendAll(good), IndexIn(|good|, index), limit);
    } else {
      NothingToTrim(MendAll(good), limit);
    }
  }

  lemma RepairedFrom(xs: seq<Option<Item>>, index: Raw, limit: nat)
    ensures var good := GoodItems(xs);
            RepairedPlaylist(Some(xs), index, limit)
            == Playlist(RoomLog.Newest(MendAll(good), limit), IndexAfterTrim(IndexIn(|good|, index), |good|, limit))
  {
  }

  lemma NothingToTrim<T>(all: seq<T>, limit: nat)
    requires all == []
    ensures RoomLog.Newest(all, limit) == all[MaxInt(0, |all| - limit)..]
  {
  }

  lemma TrimOf<T>(all: seq<T>, index: nat, limit: nat)
    requires limit >= 1 && index < |all|
    ensures var overflow := MaxInt(0, |all| - limit);
            var i, j := IndexAfterTrim(index, |all|, limit), MaxInt(overflow, index);
            && RoomLog.Newest(all, limit) == all[overflow..] && overflow + i == j < |all|
            && all[overflow..][i] == all[j]
  {
  }

  predicate IsGood(x: Option<Item>) {
    x.Some? && WellTyped(x.value)
  }

  lemma {:induction false} GoodAround(xs: seq<Option<Item>>, i: nat)
    requires i < |xs| && IsGood(xs[i])
    ensures GoodItems(xs) == GoodItems(xs[..i]) + ([xs[i].value] + GoodItems(xs[i + 1..]))
    decreases i
  {
    hide WellTyped;
    if i == 0 {
      assert xs[..0] == [];
    } else {
      GoodAround(xs[1..], i - 1);
      assert xs[1..][..i - 1] == xs[..i][1..] && xs[1..][i - 1 + 1..] == xs[i + 1..];
    }
  }

  /** Which repairs keep the selected item selected. A room that has selected a well-typed item
      still has it selected, at its place among the well-typed ones, exactly when fewer than
      `limit` well-typed items follow it and no element before it is dropped, unless it is the
      last well-typed one: dropping an element does not move the index with it. */
  lemma SelectionIsKeptIff(xs: seq<Option<Item>>, i: nat, limit: nat)
    requires limit >= 1 && i < |xs| && IsGood(xs[i])
    ensures var r, good, p := RepairedPlaylist(Some(xs), Amount(i as real), limit), GoodItems(xs), |GoodItems(xs[..i])|;
            var overflow := MaxInt(0, |good| - limit);
            && p < |good| && good[p] == xs[i].value
            && (overflow + r.index == p
                <==> |GoodItems(xs[i + 1..])| < limit
                     && ((forall k | 0 <= k < i :: IsGood(xs[k])) || (forall k | i < k < |xs| :: !IsGood(xs[k]))))
  {
    hide RepairedPlaylist, GoodItems, IndexIn, WellTyped, MendAll, Mended, IsInteger, ToNumber;
    var good, p := GoodItems(xs), |GoodItems(xs[..i])|;
    GoodAround(xs, i);
    MiddleOf(GoodItems(xs[..i]), xs[i].value, GoodItems(xs[i + 1..]));
    TrimmingKeepsTheCurrentItem(xs, Amount(i as real), limit);
    IndexInStays(|good|, i);
    GoodBefore(xs, i);
    NoneFrom(xs, i + 1);
  }

  lemma MiddleOf<T>(a: seq<T>, x: T, b: seq<T>)
    ensures var s := a + ([x] + b); |s| == |a| + 1 + |b| && s[|a|] == x
  {
  }

  lemma {:induction false} GoodBefore(xs: seq<Option<Item>>, i: nat)
    requires i <= |xs|
    ensures |GoodItems(xs[..i])| <= i
    ensures |GoodItems(xs[..i])| == i <==> forall k | 0 <= k < i :: IsGood(xs[k])
    decreases |xs|
  {
    hide WellTyped;
    if i > 0 {
      GoodBefore(xs[1..], i - 1);
      assert xs[..i][1..] == xs[1..][..i - 1];
      assert forall k | 0 < k < i :: xs[k] == xs[1..][k - 1];
      assert (forall k | 0 <= k < i :: IsGood(xs[k])) <==> IsGood(xs[0]) && forall k | 0 <= k < i - 1 :: IsGood(xs[1..][k]) by {
        assert forall k | 0 <= k < i - 1 :: xs[1..][k] == xs[k + 1];
      }
    }
  }

  lemma {:induction false} NoneFrom(xs: seq<Option<Item>>, j: nat)
    requires j <= |xs|
    ensures GoodItems(xs[j..]) == [] <==> forall k | j <= k < |xs| :: !IsGood(xs[k])
    decreases |xs| - j
  {
    hide WellTyped;
    if j < |xs| {
      NoneFrom(xs, j + 1);
      assert xs[j..][1..] == xs[j + 1..] && xs[j..][0] == xs[j];
    }
  }

  lemma IndexInStays(len: nat, index: nat)
    ensures IndexIn(len, Amount(index as real)) == if index < len then index else MaxInt(0, len - 1)
  {
    assert (index as real).Floor == index;
  }

  /** The smallest shift: a malformed element in front of two items, the first one selected.
      After the repair the room plays the second. */
  lemma DroppingShiftsTheSelection(a: Item, b: Item, limit: nat)
    requires WellTyped(a) && WellTyped(b) && limit >= 2
    ensures RepairedPlaylist(Some([None, Some(a), Some(b)]), Amount(1.0), limit) == Playlist([Mended(a), Mended(b)], 1)
  {
    var xs := [None, Some(a), Some(b)];
    assert xs[1..] == [Some(a), Some(b)] && [Some(a), Some(b)][1..] == [Some(b)] && [Some(b)][1..] == [];
    assert GoodItems([Some(b)]) == [b];
    assert GoodItems([Some(a), Some(b)]) == [a] + [b] == [a, b];
    assert GoodItems(xs) == [a, b];
    assert [a, b][1..] == [b] && MendAll([a, b]) == [Mended(a), Mended(b)];
    assert (1.0).Floor == 1;
  }
}
