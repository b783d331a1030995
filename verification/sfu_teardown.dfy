/** What the SFU registry keeps in every run, which producer a media id names, and what closing
    a room removes and leaves alone. */
module SfuTeardown {
  import opened Js
  import opened SfuRegistry

  datatype Step =
    | MakeTransport(id: Id, roomKey: string)
    | Produce(id: Id, info: Info)
    | CloseProducer(id: Id)
    | ClearMedia(mediaId: string)
    | CloseTransport(id: Id)
    | CloseRoom(roomKey: string)

  /** Ids are made by the SFU library and not in use. */
  predicate Possible(s: Registry, step: Step) {
    match step
    case MakeTransport(id, _) => id !in s.transports
    case Produce(id, _) => id !in s.dataProducers
    case _ => true
  }

  function Apply(s: Registry, step: Step): Registry {
    match step
    case MakeTransport(id, k) => CreateTransport(s, id, k)
    case Produce(id, i) => if i.transportId in s.transports then Register(s, id, i) else s
    case CloseProducer(id) => CloseOne(s, id)
    case ClearMedia(m) => Without(s, Named(s, m))
    case CloseTransport(t) => CloseTransportOf(s, t)
    case CloseRoom(k) => CloseRoomOf(s, k)
  }

  predicate Allowed(s: Registry, steps: seq<Step>)
    decreases |steps|
  {
    steps == [] || (Possible(s, steps[0]) && Allowed(Apply(s, steps[0]), steps[1..]))
  }

  function Run(s: Registry, steps: seq<Step>): Registry
    decreases |steps|
  {
    if steps == [] then s else Run(Apply(s, steps[0]), steps[1..])
  }

  // ---------------------------------------------------------------- invariant

  lemma TablesFitMore(rs: map<string, map<Id, Entry>>, dp: map<Id, Info>, id: Id, i: Info)
    requires TablesFit(rs, dp) && id !in dp
    ensures TablesFit(rs, dp[id := i])
    ensures HasMedia(i) && i.isRequestChannel ==>
              var m := i.localMediaId.value;
              TablesFit(rs[m := (if m in rs then rs[m] else map[])[id := EntryOf(id, i)]], dp[id := i])
  {
    assert forall m, o | m in rs && o in rs[m] :: EntryFits(dp[id := i], m, rs[m][o], true);
    if HasMedia(i) && i.isRequestChannel {
      var m := i.localMediaId.value;
      var table := (if m in rs then rs[m] else map[])[id := EntryOf(id, i)];
      assert id in table;
      assert forall n, o | n in rs[m := table] && o in rs[m := table][n] :: (n == m && o == id) || (n in rs && o in rs[n]);
    }
  }

  lemma RegisterKeeps(s: Registry, id: Id, i: Info)
    requires Sound(s) && id !in s.dataProducers && i.transportId in s.transports
    ensures Sound(Register(s, id, i)) && (Complete(s) ==> Complete(Register(s, id, i)))
  {
    RegisterKeepsComplete(s, id, i);
    hide Complete, TableOf;
    TablesFitMore(s.requests, s.dataProducers, id, i);
    hide TablesFit;
    assert forall m | m in s.providers :: EntryFits(s.dataProducers[id := i], m, s.providers[m], false);
  }

  lemma RegisterKeepsComplete(s: Registry, id: Id, i: Info)
    requires id !in s.dataProducers
    ensures Complete(s) ==> Complete(Register(s, id, i))
  {
  }

  lemma TransportsCloseSoundly(s: Registry, ts: set<Id>)
    requires Sound(s)
    ensures Sound(ClosedTransports(s, ts)) && (Complete(s) ==> Complete(ClosedTransports(s, ts)))
  {
    hide DropProviders, DropRequests, ProvidersFit, TablesFit;
    WithoutKeepsSound(s, OnAny(s.dataProducers, ts));
  }

  lemma CloseRoomKeeps(s: Registry, roomKey: string)
    requires Sound(s)
    ensures Sound(CloseRoomOf(s, roomKey)) && (Complete(s) ==> Complete(CloseRoomOf(s, roomKey)))
  {
    hide OfRoomProviders, OfRoomRequests, DropProviders, DropRequests, ProvidersFit, TablesFit;
    WithoutKeepsSound(s, ClosedWithRoom(s, roomKey));
  }

  lemma StepKeeps(s: Registry, step: Step)
    requires Sound(s) && Complete(s) && Possible(s, step)
    ensures Sound(Apply(s, step)) && Complete(Apply(s, step))
  {
    hide Without, CloseOne, ClosedTransports, CloseRoomOf, Register, ProvidersFit, TablesFit;
    match step {
      case MakeTransport(_, _) =>
      case Produce(id, i) =>
        if i.transportId in s.transports {
          RegisterKeeps(s, id, i);
        }
      case CloseProducer(id) =>
        CloseOneIsWithout(s, id);
        WithoutKeepsSound(s, {id});
      case ClearMedia(m) => WithoutKeepsSound(s, Named(s, m));
      case CloseTransport(t) => CloseTransportKeeps(s, t);
      case CloseRoom(k) => CloseRoomKeeps(s, k);
    }
  }

  lemma CloseTransportKeeps(s: Registry, t: Id)
    requires Sound(s)
    ensures Sound(CloseTransportOf(s, t)) && (Complete(s) ==> Complete(CloseTransportOf(s, t)))
  {
    TransportsCloseSoundly(s, {t});
  }

  /** In every run each provider and request entry names an open producer made for that media,
      no inner request table is empty and every open request channel is listed. */
  lemma {:induction false} EveryRunIsSound(s: Registry, steps: seq<Step>)
    requires Sound(s) && Complete(s) && Allowed(s, steps)
    ensures Sound(Run(s, steps)) && Complete(Run(s, steps))
    decreases |steps|
  {
    if steps != [] {
      StepKeeps(s, steps[0]);
      EveryRunIsSound(Apply(s, steps[0]), steps[1..]);
    }
  }

  // ---------------------------------------------------------------- latest producer wins

  predicate ProvidesFor(step: Step, mediaId: string) {
    step.Produce? && step.info.localMediaId == Some(mediaId) && !step.info.isRequestChannel
  }

  /** Neither a newer provider of the media, nor the id used again. */
  predicate LeavesLatest(step: Step, mediaId: string, id: Id) {
    !ProvidesFor(step, mediaId) && !(step.Produce? && step.id == id)
  }

  /** The media id names this provider while it is open, and nobody once it is not. */
  predicate NamesWhileOpen(s: Registry, mediaId: string, e: Entry) {
    && (mediaId in s.providers <==> e.dataProducerId in s.dataProducers)
    && (mediaId in s.providers ==> s.providers[mediaId] == e)
  }

  lemma StepLeavesLatest(s: Registry, step: Step, mediaId: string, e: Entry)
    requires Sound(s) && NamesWhileOpen(s, mediaId, e) && LeavesLatest(step, mediaId, e.dataProducerId)
    ensures NamesWhileOpen(Apply(s, step), mediaId, e)
  {
    hide DropRequests, UnregisterRequest, OfRoomProviders, OfRoomRequests, Named, TablesFit;
    match step
    case MakeTransport(_, _) =>
    case Produce(_, _) =>
    case CloseProducer(_) =>
    case ClearMedia(_) =>
    case CloseTransport(_) =>
    case CloseRoom(_) =>
  }

  lemma {:induction false} StaysNamed(s: Registry, steps: seq<Step>, mediaId: string, e: Entry)
    requires Sound(s) && Complete(s) && Allowed(s, steps) && NamesWhileOpen(s, mediaId, e)
    requires forall step | step in steps :: LeavesLatest(step, mediaId, e.dataProducerId)
    ensures NamesWhileOpen(Run(s, steps), mediaId, e)
    decreases |steps|
  {
    hide Apply;
    if steps != [] {
      StepLeavesLatest(s, steps[0], mediaId, e);
      StepKeeps(s, steps[0]);
      StaysNamed(Apply(s, steps[0]), steps[1..], mediaId, e);
    }
  }

  lemma RegisteredIsNamed(s: Registry, id: Id, i: Info)
    requires HasMedia(i) && !i.isRequestChannel
    ensures NamesWhileOpen(Register(s, id, i), i.localMediaId.value, EntryOf(id, i))
  {
  }

  /** From the moment a provider of a media id is produced and until a newer one is, the media
      id names it exactly while it is open. Closing superseded producers, other media, other
      transports and other rooms never unregisters it; once it is closed, by whatever close,
      nobody is named, however many superseded producers are still open. */
  lemma LatestProducerWins(s: Registry, id: Id, i: Info, steps: seq<Step>)
    requires Sound(s) && Complete(s) && Possible(s, Produce(id, i)) && i.transportId in s.transports
    requires HasMedia(i) && !i.isRequestChannel
    requires Allowed(Apply(s, Produce(id, i)), steps)
    requires forall step | step in steps :: LeavesLatest(step, i.localMediaId.value, id)
    ensures NamesWhileOpen(Run(Apply(s, Produce(id, i)), steps), i.localMediaId.value, EntryOf(id, i))
  {
    StepKeeps(s, Produce(id, i));
    RegisteredIsNamed(s, id, i);
    hide Sound, Complete, Register;
    StaysNamed(Apply(s, Produce(id, i)), steps, i.localMediaId.value, EntryOf(id, i));
  }

  /** The shortest way to a media id that names nobody although a producer of it is open: there
      is no way back to an older provider when the newest closes. */
  lemma NoFallbackToSuperseded(s: Registry, old_: Id, newest: Id, i: Info, j: Info)
    requires Sound(s) && old_ !in s.dataProducers && newest !in s.dataProducers && old_ != newest
    requires HasMedia(i) && i.localMediaId == j.localMediaId && !i.isRequestChannel && !j.isRequestChannel
    ensures var t := CloseOne(Register(Register(s, old_, i), newest, j), newest);
            old_ in t.open && i.localMediaId.value !in t.providers
  {
    hide UnregisterRequest;
  }

  // ---------------------------------------------------------------- closing a room

  /** After closing a room no transport, producer, registry entry or router of it remains. */
  lemma ClosedRoomLeavesNothing(s: Registry, roomKey: string)
    requires Sound(s)
    ensures var t := CloseRoomOf(s, roomKey);
            && roomKey !in t.routers
            && (forall id | id in t.transports :: t.transports[id] != roomKey)
            && (forall id | id in t.dataProducers :: s.transports[t.dataProducers[id].transportId] != roomKey)
            && (forall m | m in t.providers :: t.providers[m].roomId != roomKey)
            && (forall m, id | m in t.requests && id in t.requests[m] :: t.requests[m][id].roomId != roomKey)
  {
    hide ProvidersFit, TablesFit;
    var t := CloseRoomOf(s, roomKey);
    forall m | m in t.providers
      ensures t.providers[m].roomId != roomKey
    {
      assert t.providers[m].dataProducerId in Named(s, m);
    }
    forall m, id | m in t.requests && id in t.requests[m]
      ensures t.requests[m][id].roomId != roomKey
    {
      assert id in s.requests[m] && id !in OfRoomRequests(s, roomKey);
    }
  }

  /** What the signalling handlers check before producing: the producer is of the transport's
      room, and so is its media. */
  predicate Checked(s: Registry, mediaRoom: map<string, string>, i: Info) {
    && HasMedia(i) && i.localMediaId.value in mediaRoom && mediaRoom[i.localMediaId.value] == i.roomId
    && i.transportId in s.transports && s.transports[i.transportId] == i.roomId
  }

  predicate Belongs(s: Registry, mediaRoom: map<string, string>) {
    forall id | id in s.dataProducers :: Checked(s, mediaRoom, s.dataProducers[id])
  }

  predicate FromHandlers(s: Registry, mediaRoom: map<string, string>, steps: seq<Step>)
    decreases |steps|
  {
    steps == [] || ((steps[0].Produce? ==> Checked(s, mediaRoom, steps[0].info)) && FromHandlers(Apply(s, steps[0]), mediaRoom, steps[1..]))
  }

  lemma ProducersComeFromBefore(s: Registry, step: Step)
    requires Sound(s) && Possible(s, step)
    ensures forall id | id in Apply(s, step).dataProducers ::
              || (id in s.dataProducers && Apply(s, step).dataProducers[id] == s.dataProducers[id])
              || (step.Produce? && id == step.id && Apply(s, step).dataProducers[id] == step.info)
    ensures forall t | t in s.transports && t in Apply(s, step).transports :: Apply(s, step).transports[t] == s.transports[t]
  {
    hide Sound, DropProviders, DropRequests, UnregisterRequest, UnregisterProvider, OfRoomProviders, OfRoomRequests, Named;
  }

  lemma {:induction false} HandlersKeepMediaInOneRoom(s: Registry, mediaRoom: map<string, string>, steps: seq<Step>)
    requires Sound(s) && Complete(s) && Belongs(s, mediaRoom) && Allowed(s, steps) && FromHandlers(s, mediaRoom, steps)
    ensures Sound(Run(s, steps)) && Belongs(Run(s, steps), mediaRoom)
    decreases |steps|
  {
    hide Apply;
    if steps != [] {
      StepKeeps(s, steps[0]);
      ProducersComeFromBefore(s, steps[0]);
      HandlersKeepMediaInOneRoom(Apply(s, steps[0]), mediaRoom, steps[1..]);
    }
  }

  predicate IsOfRoom(mediaId: string, mediaRoom: map<string, string>, roomKey: string) {
    mediaId in mediaRoom && mediaRoom[mediaId] == roomKey
  }

  lemma OnlyTheRoomsOwnClose(s: Registry, mediaRoom: map<string, string>, roomKey: string)
    requires Sound(s) && Belongs(s, mediaRoom)
    ensures ClosedWithRoom(s, roomKey) == OnAny(s.dataProducers, RoomTransports(s, roomKey))
  {
    forall id | id in OfRoomProviders(s, roomKey)
      ensures id in OnAny(s.dataProducers, RoomTransports(s, roomKey))
    {
      var m :| m in s.providers && s.providers[m].roomId == roomKey && id in Named(s, m);
      assert EntryFits(s.dataProducers, m, s.providers[m], false);
      if id in TableOf(s, m) {
        assert EntryFits(s.dataProducers, m, s.requests[m][id], true);
      }
    }
    forall id | id in OfRoomRequests(s, roomKey)
      ensures id in OnAny(s.dataProducers, RoomTransports(s, roomKey))
    {
      var m :| m in s.requests && id in s.requests[m] && InTable(s.requests, m, roomKey, id);
      assert EntryFits(s.dataProducers, m, s.requests[m][id], true);
    }
  }

  /** In a run whose producers passed the handlers' checks, closing a room leaves every other
      room exactly as it was. */
  lemma OtherRoomsAreUntouched(s: Registry, mediaRoom: map<string, string>, roomKey: string)
    requires Sound(s) && Belongs(s, mediaRoom)
    ensures var t := CloseRoomOf(s, roomKey);
            && t.routers == s.routers - {roomKey}
            && t.transports == (map id | id in s.transports && s.transports[id] != roomKey :: s.transports[id])
            && t.dataProducers == (map id | id in s.dataProducers && s.dataProducers[id].roomId != roomKey :: s.dataProducers[id])
            && t.providers == (map m | m in s.providers && s.providers[m].roomId != roomKey :: s.providers[m])
            && t.requests == (map m | m in s.requests && !IsOfRoom(m, mediaRoom, roomKey) :: s.requests[m])
  {
    OnlyTheRoomsOwnClose(s, mediaRoom, roomKey);
    var gone := OnAny(s.dataProducers, RoomTransports(s, roomKey));
    assert forall id | id in s.dataProducers :: id in gone <==> s.dataProducers[id].roomId == roomKey;
    TablesOfOtherRooms(s, mediaRoom, roomKey, gone);
    ProvidersOfOtherRooms(s, roomKey, gone);
    hide DropRequests, DropProviders, ClosedWithRoom, Sound, IsOfRoom;
  }

  lemma ProvidersOfOtherRooms(s: Registry, roomKey: string, gone: set<Id>)
    requires Sound(s) && forall id | id in s.dataProducers :: id in gone <==> s.dataProducers[id].roomId == roomKey
    ensures DropProviders(s.providers, gone) == map m | m in s.providers && s.providers[m].roomId != roomKey :: s.providers[m]
  {
    assert forall m | m in s.providers :: EntryFits(s.dataProducers, m, s.providers[m], false);
  }

  lemma TablesOfOtherRooms(s: Registry, mediaRoom: map<string, string>, roomKey: string, gone: set<Id>)
    requires Sound(s) && Belongs(s, mediaRoom)
    requires forall id | id in s.dataProducers :: id in gone <==> s.dataProducers[id].roomId == roomKey
    ensures DropRequests(s.requests, gone) == map m | m in s.requests && !IsOfRoom(m, mediaRoom, roomKey) :: s.requests[m]
  {
    hide ProvidersFit;
    forall m | m in s.requests
      ensures s.requests[m] - gone == if IsOfRoom(m, mediaRoom, roomKey) then map[] else s.requests[m]
    {
      var some :| some in s.requests[m];
      assert forall id | id in s.requests[m] :: EntryFits(s.dataProducers, m, s.requests[m][id], true);
      assert Checked(s, mediaRoom, s.dataProducers[some]);
    }
  }

  /** Without those checks a room can lose channels to the closing of another: a viewer's
      channel of room `B` under media of room `A` closes with room `A`. */
  lemma SharedMediaCrossesRooms()
    ensures var media := Some("film");
            var s := Run(Fresh, [MakeTransport(1, "A"), MakeTransport(2, "B"),
                                 Produce(3, Info(1, media, "A", "ann", false)), Produce(4, Info(2, media, "B", "ann", true))]);
            4 in s.open && 4 !in CloseRoomOf(s, "A").open
  {
    var media := Some("film");
    var i, j := Info(1, media, "A", "ann", false), Info(2, media, "B", "ann", true);
    var steps := [MakeTransport(1, "A"), MakeTransport(2, "B"), Produce(3, i), Produce(4, j)];
    var s2 := CreateTransport(CreateTransport(Fresh, 1, "A"), 2, "B");
    var s3 := Register(s2, 3, i);
    var s4 := Register(s3, 4, j);
    assert steps[1..][1..][1..][1..] == [];
    assert Run(Fresh, steps) == Run(s2, steps[1..][1..]) == Run(s3, steps[1..][1..][1..]) == Run(s4, []);
    assert "film" in s4.providers && 4 in Named(s4, "film");
  }
}
